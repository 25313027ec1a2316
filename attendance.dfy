/**
 * src/app/api/attendance/route.ts: the attendance list (`GET`, newest
 * check-in first, scoped by role) and the admins' manual entry (`POST`).
 */
module AttendanceRoute {
  import opened Types
  import opened Tables
  import opened Store
  import Hours

  /**
   * The query string. A parameter that is absent or empty is None, since the
   * handler tests each with a truthiness check.
   */
  datatype AttendanceQuery = AttendanceQuery(userId: Option<UserId>, startDate: Option<Time>, endDate: Option<Time>)

  function CheckInKey(a: Attendance): int { a.checkIn }

  /** `gte("check_in", start_date)` and `lte("check_in", end_date)`, each only when given. */
  predicate InRange(t: Time, q: AttendanceQuery) {
    (q.startDate.None? || t >= q.startDate.value) && (q.endDate.None? || t <= q.endDate.value)
  }

  /** The `user_id` filter the handler applies: the parameter for an admin, the caller otherwise. */
  function Scope(role: Option<Role>, caller: UserId, q: AttendanceQuery): Option<UserId> {
    if IsAdmin(role) then q.userId else Some(caller)
  }

  predicate Selected(scope: Option<UserId>, q: AttendanceQuery, a: Attendance) {
    (scope.None? || a.userId == scope.value) && InRange(a.checkIn, q)
  }

  function Selector(scope: Option<UserId>, q: AttendanceQuery): Attendance -> bool {
    (a: Attendance) => Selected(scope, q, a)
  }

  /** The list handler over the `profiles` and `attendance` tables. */
  function Get(profiles: seq<Profile>, rows: seq<Attendance>, caller: Option<UserId>, q: AttendanceQuery)
    : (r: Result<seq<Attendance>>)
    ensures r.Fail? <==> caller.None?
    ensures r.Fail? ==> r.error == Unauthorized
    ensures r.Ok? ==> SortedDesc(r.value, CheckInKey)
  {
    if caller.None? then Fail(Unauthorized)
    else
      var scope := Scope(RoleOf(profiles, caller.value), caller.value, q);
      Ok(SortDesc(Filter(rows, Selector(scope, q)), CheckInKey))
  }

  /**
   * What the list holds: every row of the table that the caller may see and
   * that lies in the date range, each as often as it is stored.
   */
  lemma {:induction false} GetContents(profiles: seq<Profile>, rows: seq<Attendance>, caller: UserId, q: AttendanceQuery)
    ensures var r := Get(profiles, rows, Some(caller), q).value;
      var role := RoleOf(profiles, caller);
      && (forall a :: a in r <==>
            && a in rows
            && (IsAdmin(role) || a.userId == caller)
            && (IsAdmin(role) && q.userId.Some? ==> a.userId == q.userId.value)
            && InRange(a.checkIn, q))
      && (forall a :: a in rows && Selected(Scope(role, caller, q), q, a) ==> multiset(r)[a] == multiset(rows)[a])
  {
    var scope := Scope(RoleOf(profiles, caller), caller, q);
    SortFilterMembers(rows, Selector(scope, q), CheckInKey);
    FilterMultiset(rows, Selector(scope, q));
  }

  /**
   * A caller who is not an admin sees only their own rows, and the `user_id`
   * parameter makes no difference for them.
   */
  lemma {:induction false} EmployeeSeesOnlyOwnRows(profiles: seq<Profile>, rows: seq<Attendance>, caller: UserId, q: AttendanceQuery, other: Option<UserId>)
    requires !IsAdmin(RoleOf(profiles, caller))
    ensures forall a :: a in Get(profiles, rows, Some(caller), q).value ==> a.userId == caller
    ensures Get(profiles, rows, Some(caller), q) == Get(profiles, rows, Some(caller), q.(userId := other))
  {
    GetContents(profiles, rows, caller, q);
    FilterCongruent(rows, Selector(Some(caller), q), Selector(Some(caller), q.(userId := other)));
  }

  /** An admin without a `user_id` parameter sees every row in the date range. */
  lemma {:induction false} AdminSeesAllInRange(profiles: seq<Profile>, rows: seq<Attendance>, caller: UserId, q: AttendanceQuery)
    requires IsAdmin(RoleOf(profiles, caller)) && q.userId.None?
    ensures forall a :: a in rows && InRange(a.checkIn, q) ==> a in Get(profiles, rows, Some(caller), q).value
  {
    GetContents(profiles, rows, caller, q);
  }

  /** The body of the manual entry; an absent or empty `check_out` is None. */
  datatype ManualEntry = ManualEntry(userId: UserId, checkIn: Time, checkOut: Option<Time>, notes: Option<string>)

  /** The row the handler inserts: hours are derived exactly when a check-out is given. */
  function ManualRow(id: Id, e: ManualEntry): (a: Attendance)
    ensures a.id == id && a.userId == e.userId && a.checkIn == e.checkIn
    ensures a.checkOut == e.checkOut && a.notes == e.notes
    ensures HoursDerived(a)
  {
    Attendance(id, e.userId, e.checkIn, e.checkOut,
      if e.checkOut.Some? then Some(Hours.CalculateHours(e.checkIn, e.checkOut.value)) else None,
      e.notes)
  }

  /** `attendanceData` as logged in `new_values`; an absent `notes` is dropped from the JSON. */
  function ManualSnapshot(e: ManualEntry): (m: Snapshot)
    ensures "user_id" in m && "check_in" in m
    ensures m["user_id"] == Int(e.userId) && m["check_in"] == Int(e.checkIn)
    ensures ("notes" in m <==> e.notes.Some?) && (e.notes.Some? ==> m["notes"] == Str(e.notes.value))
    ensures ("check_out" in m <==> e.checkOut.Some?) && ("total_hours" in m <==> e.checkOut.Some?)
    ensures e.checkOut.Some? ==> m["check_out"] == Int(e.checkOut.value)
    ensures e.checkOut.Some? ==> m["total_hours"] == Hundredths(Hours.CalculateHours(e.checkIn, e.checkOut.value))
    ensures m.Keys <= {"user_id", "check_in", "notes", "check_out", "total_hours"}
  {
    var m := PutOpt(map["user_id" := Int(e.userId), "check_in" := Int(e.checkIn)], "notes",
                    if e.notes.Some? then Some(Str(e.notes.value)) else None);
    if e.checkOut.Some? then
      m["check_out" := Int(e.checkOut.value)]["total_hours" := Hundredths(Hours.CalculateHours(e.checkIn, e.checkOut.value))]
    else m
  }

  /** The logged snapshot records exactly the columns of the inserted row that were submitted. */
  lemma ManualSnapshotMatchesRow(id: Id, e: ManualEntry)
    ensures var a := ManualRow(id, e); var m := ManualSnapshot(e);
      && ("total_hours" in m <==> a.totalHours.Some?)
      && (a.totalHours.Some? ==> m["total_hours"] == Hundredths(a.totalHours.value))
      && (a.checkOut.Some? ==> m["check_out"] == Int(a.checkOut.value))
      && m["check_in"] == Int(a.checkIn) && m["user_id"] == Int(a.userId)
  {
  }

  /** The audit row of a manual entry: the inserted row's id and the logged body. */
  function ManualAudit(caller: UserId, a: Attendance, e: ManualEntry): (l: AuditEntry)
    ensures l.userId == caller && l.action == "create_attendance" && l.entityType == "attendance"
    ensures l.entityId == Some(a.id) && l.oldValues.None? && l.newValues == Some(ManualSnapshot(e))
  {
    AuditEntry(caller, "create_attendance", "attendance", Some(a.id), None, Some(ManualSnapshot(e)))
  }

  /** The manual-entry handler: admins only. */
  method Post(db: Db, caller: Option<UserId>, e: ManualEntry) returns (res: Result<Attendance>)
    requires db.Valid()
    modifies db`attendance, db`auditLogs, db`nextId
    ensures db.Valid()
    ensures caller.None? ==> res == Fail(Unauthorized)
    ensures caller.Some? && !IsAdmin(RoleOf(db.profiles, caller.value)) ==> res == Fail(Forbidden)
    ensures res.Ok? <==> caller.Some? && IsAdmin(RoleOf(db.profiles, caller.value))
    ensures res.Fail? ==> unchanged(db)
    ensures res.Ok? ==>
      && res.value == ManualRow(old(db.nextId), e)
      && db.attendance == old(db.attendance) + [res.value]
      && db.auditLogs == old(db.auditLogs) + [ManualAudit(caller.value, res.value, e)]
  {
    if caller.None? {
      return Fail(Unauthorized);
    }
    if !IsAdmin(RoleOf(db.profiles, caller.value)) {
      return Fail(Forbidden);
    }
    var id := db.NewId();
    var row := ManualRow(id, e);
    AppendRowValid(db.attendance, db.nextId, row);
    db.attendance := db.attendance + [row];
    db.auditLogs := db.auditLogs + [ManualAudit(caller.value, row, e)];
    res := Ok(row);
  }

  /** A row added for a person shows up in that person's own list whenever its check-in is in range. */
  lemma {:induction false} NewRowVisibleToOwner(profiles: seq<Profile>, rows: seq<Attendance>, a: Attendance, q: AttendanceQuery)
    requires InRange(a.checkIn, q)
    requires !IsAdmin(RoleOf(profiles, a.userId)) || q.userId.None? || q.userId == Some(a.userId)
    ensures a in Get(profiles, rows + [a], Some(a.userId), q).value
  {
    GetContents(profiles, rows + [a], a.userId, q);
  }
}
