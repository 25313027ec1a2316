/**
 * Entities and enumerations of src/types/index.ts and src/lib/constants.ts,
 * the error responses the route handlers return, and the profile-role lookup
 * every handler performs.
 */
module Types {
  import opened Tables

  /** An opaque row identifier (the database generates them). */
  type Id = nat
  type UserId = Id
  /** An instant, in milliseconds since the epoch. */
  type Time = int
  /** A calendar date (`period_start`, `period_end`), as a day number. */
  type Day = int
  /** An amount of money, in the smallest currency unit. */
  type Money = int

  datatype Option<T> = None | Some(value: T)

  datatype Role = Employee | Admin

  datatype SalaryStatus = Pending | Paid

  function StatusName(s: SalaryStatus): string {
    match s
    case Pending => "pending"
    case Paid => "paid"
  }

  datatype Profile = Profile(
    id: UserId,
    email: string,
    fullName: string,
    role: Role,
    salaryType: string,
    hourlyRate: Option<Money>,
    monthlySalary: Option<Money>,
    isActive: bool,
    createdAt: Time)

  /** A row of `attendance`; `totalHours` is in hundredths of an hour. */
  datatype Attendance = Attendance(
    id: Id,
    userId: UserId,
    checkIn: Time,
    checkOut: Option<Time>,
    totalHours: Option<int>,
    notes: Option<string>)

  datatype SalaryRecord = SalaryRecord(
    id: Id,
    userId: UserId,
    periodStart: Day,
    periodEnd: Day,
    baseAmount: Money,
    bonus: Money,
    deductions: Money,
    totalAmount: Money,
    hoursWorked: Option<int>,
    status: SalaryStatus,
    notes: Option<string>,
    createdBy: UserId)

  /** A row of `notifications`; priority and target role are stored as submitted. */
  datatype Notification = Notification(
    id: Id,
    title: string,
    message: string,
    priority: string,
    targetRole: string,
    createdBy: UserId,
    createdAt: Time)

  datatype NotificationRead = NotificationRead(notificationId: Id, userId: UserId, readAt: Time)

  /** A scalar inside an audit snapshot (`old_values` / `new_values`). */
  datatype Value = Null | Str(s: string) | Int(i: int) | Hundredths(h: int)

  type Snapshot = map<string, Value>

  /** Adds `key` to a snapshot when the submitted value was present (JSON drops `undefined`). */
  function PutOpt(m: Snapshot, key: string, v: Option<Value>): Snapshot {
    if v.Some? then m[key := v.value] else m
  }

  /** A row of `audit_logs`. */
  datatype AuditEntry = AuditEntry(
    userId: UserId,
    action: string,
    entityType: string,
    entityId: Option<Id>,
    oldValues: Option<Snapshot>,
    newValues: Option<Snapshot>)

  /** A JSON error response: the HTTP status and the `error` text. */
  datatype ApiError = ApiError(status: nat, message: string)

  const Unauthorized := ApiError(401, "Unauthorized")
  const Forbidden := ApiError(403, "Forbidden")

  datatype Result<T> = Ok(value: T) | Fail(error: ApiError)

  function ProfilesWithId(profiles: seq<Profile>, uid: UserId): seq<Profile> {
    Filter(profiles, (p: Profile) => p.id == uid)
  }

  /**
   * `from("profiles").select("role").eq("id", uid).single()` and then
   * `profile?.role`: a role only when exactly one profile row has that id.
   */
  function RoleOf(profiles: seq<Profile>, uid: UserId): (r: Option<Role>)
    ensures r.Some? <==> |ProfilesWithId(profiles, uid)| == 1
    ensures r.Some? ==> exists p :: p in profiles && p.id == uid && p.role == r.value
  {
    var rows := ProfilesWithId(profiles, uid);
    if |rows| == 1 then
      FilterMembers(profiles, (p: Profile) => p.id == uid);
      assert rows[0] in rows;
      Some(rows[0].role)
    else None
  }

  /** `profile?.role === "admin"`: a missing profile is not an admin. */
  predicate IsAdmin(role: Option<Role>) { role == Some(Admin) }
}
