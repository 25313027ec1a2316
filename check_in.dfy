/**
 * `POST` of src/app/api/attendance/check-in/route.ts: open an attendance
 * session for the signed-in caller and log it.
 */
module CheckInRoute {
  import opened Types
  import opened Tables
  import opened Store

  const AlreadyCheckedIn := ApiError(400, "Already checked in")

  /** The request body `{ user_id }` (None when the field is missing). */
  datatype CheckInBody = CheckInBody(userId: Option<UserId>)

  /** Open sessions of `uid` that began at or after `dayStart`: the pre-check query. */
  function OpenSince(rows: seq<Attendance>, uid: UserId, dayStart: Time): (r: seq<Attendance>)
    ensures |r| <= |rows|
    ensures forall a :: a in r <==> a in rows && a.userId == uid && a.checkIn >= dayStart && a.checkOut.None?
  {
    var p := (a: Attendance) => a.userId == uid && a.checkIn >= dayStart && a.checkOut.None?;
    FilterMembers(rows, p);
    Filter(rows, p)
  }

  /** The row the handler inserts. */
  function NewSession(id: Id, uid: UserId, now: Time): (a: Attendance)
    ensures a.id == id && a.userId == uid && a.checkIn == now && a.notes.None?
    ensures a.checkOut.None? && HoursDerived(a)
    ensures forall dayStart :: dayStart <= now ==> OpenSince([a], uid, dayStart) == [a]
  {
    Attendance(id, uid, now, None, None, None)
  }

  /** The audit row written after a successful check-in. */
  function CheckInAudit(a: Attendance): (e: AuditEntry)
    ensures e.userId == a.userId && e.action == "check_in" && e.entityType == "attendance"
    ensures e.entityId == Some(a.id) && e.oldValues.None?
    ensures e.newValues.Some? && e.newValues.value.Keys == {"check_in"}
    ensures e.newValues.value["check_in"] == Int(a.checkIn)
  {
    AuditEntry(a.userId, "check_in", "attendance", Some(a.id), None, Some(map["check_in" := Int(a.checkIn)]))
  }

  /**
   * The handler. `todayStart` is local midnight of `now`. The pre-check ends in
   * `.single()`, which yields a row only when exactly one row matches; so the
   * check-in is refused exactly when one open session since midnight exists.
   */
  method Post(db: Db, caller: Option<UserId>, body: CheckInBody, todayStart: Time, now: Time)
    returns (res: Result<Attendance>)
    requires db.Valid()
    modifies db`attendance, db`auditLogs, db`nextId
    ensures db.Valid()
    ensures caller.None? ==> res == Fail(Unauthorized)
    ensures caller.Some? && body.userId != caller ==> res == Fail(Forbidden)
    ensures caller.Some? && body.userId == caller && |OpenSince(old(db.attendance), caller.value, todayStart)| == 1
            ==> res == Fail(AlreadyCheckedIn)
    ensures res.Ok? <==> caller.Some? && body.userId == caller
                         && |OpenSince(old(db.attendance), caller.value, todayStart)| != 1
    ensures res.Fail? ==> unchanged(db)
    ensures res.Ok? ==>
      && res.value == NewSession(old(db.nextId), caller.value, now)
      && db.attendance == old(db.attendance) + [res.value]
      && db.auditLogs == old(db.auditLogs) + [CheckInAudit(res.value)]
    ensures res.Ok? && |OpenSince(old(db.attendance), caller.value, todayStart)| == 0 && todayStart <= now
            ==> |OpenSince(db.attendance, caller.value, todayStart)| == 1
  {
    if caller.None? {
      return Fail(Unauthorized);
    }
    var user := caller.value;
    if body.userId != Some(user) {
      return Fail(Forbidden);
    }
    var existing := OpenSince(db.attendance, user, todayStart);
    if |existing| == 1 {
      return Fail(AlreadyCheckedIn);
    }
    var id := db.NewId();
    var row := NewSession(id, user, now);
    OpenSinceAppend(db.attendance, user, todayStart, row);
    AppendRowValid(db.attendance, db.nextId, row);
    db.attendance := db.attendance + [row];
    db.auditLogs := db.auditLogs + [CheckInAudit(row)];
    res := Ok(row);
  }

  /** Appending one row adds it to the open-session query exactly when it matches. */
  lemma OpenSinceAppend(rows: seq<Attendance>, uid: UserId, dayStart: Time, a: Attendance)
    ensures OpenSince(rows + [a], uid, dayStart)
         == OpenSince(rows, uid, dayStart)
            + (if a.userId == uid && a.checkIn >= dayStart && a.checkOut.None? then [a] else [])
  {
    FilterAppend(rows, [a], (a: Attendance) => a.userId == uid && a.checkIn >= dayStart && a.checkOut.None?);
  }

  /** A session left open before today's start does not block a new check-in. */
  lemma {:induction false} StaleSessionDoesNotBlock(rows: seq<Attendance>, uid: UserId, todayStart: Time, stale: Attendance)
    requires stale.userId == uid && stale.checkOut.None? && stale.checkIn < todayStart
    ensures OpenSince(rows + [stale], uid, todayStart) == OpenSince(rows, uid, todayStart)
  {
    OpenSinceAppend(rows, uid, todayStart, stale);
  }

  /**
   * Check-in keeps "at most one open session since midnight": a caller with none
   * gets exactly the new one, and a caller with one is refused.
   */
  lemma {:induction false} CheckInKeepsOneOpenSession(rows: seq<Attendance>, uid: UserId, todayStart: Time, now: Time, id: Id)
    requires |OpenSince(rows, uid, todayStart)| <= 1
    requires todayStart <= now
    ensures var after := if |OpenSince(rows, uid, todayStart)| == 1 then rows else rows + [NewSession(id, uid, now)];
      |OpenSince(after, uid, todayStart)| == 1
  {
    OpenSinceAppend(rows, uid, todayStart, NewSession(id, uid, now));
  }
}
