/**
 * src/app/api/users/route.ts: the admins' user list (`GET`) and user creation
 * (`POST`): an account is created with the authentication service, the new
 * person's profile gets the salary fields, and the creation is logged.
 */
module UsersRoute {
  import opened Types
  import opened Tables
  import opened Store

  function CreatedKey(p: Profile): int { p.createdAt }

  /** The list handler: admins get every profile, newest first. */
  function Get(profiles: seq<Profile>, caller: Option<UserId>): (r: Result<seq<Profile>>)
    ensures caller.None? ==> r == Fail(Unauthorized)
    ensures caller.Some? && !IsAdmin(RoleOf(profiles, caller.value)) ==> r == Fail(Forbidden)
    ensures r.Ok? <==> caller.Some? && IsAdmin(RoleOf(profiles, caller.value))
    ensures r.Ok? ==> SortedDesc(r.value, CreatedKey) && multiset(r.value) == multiset(profiles)
  {
    if caller.None? then Fail(Unauthorized)
    else if !IsAdmin(RoleOf(profiles, caller.value)) then Fail(Forbidden)
    else Ok(SortDesc(profiles, CreatedKey))
  }

  /** The body of the request; a field left out is None. */
  datatype NewUser = NewUser(
    email: string,
    password: string,
    fullName: Option<string>,
    role: Option<string>,
    salaryType: Option<string>,
    hourlyRate: Option<Money>,
    monthlySalary: Option<Money>)

  /** What the authentication service's `createUser` answered: an error text or the new account's id. */
  datatype AuthOutcome = AuthFailed(message: string) | AuthCreated(id: UserId)

  /** One column of an update: a key left `undefined` is dropped and keeps the stored value. */
  datatype Patch<T> = Keep | Put(v: T)

  function Apply<T>(current: T, p: Patch<T>): T {
    if p.Put? then p.v else current
  }

  datatype ProfilePatch = ProfilePatch(salaryType: Patch<string>, hourlyRate: Patch<Option<Money>>, monthlySalary: Patch<Option<Money>>)

  /** A submitted value as a column of the update: absent means the key is dropped. */
  function Submitted<T>(v: Option<T>): Patch<Option<T>> {
    if v.Some? then Put(Some(v.value)) else Keep
  }

  /**
   * The salary-field normalisation: the hourly rate is kept only for hourly pay
   * and the monthly salary only for monthly pay, every other combination
   * stores null.
   */
  function Normalise(u: NewUser): (p: ProfilePatch)
    ensures u.salaryType != Some("hourly") ==> p.hourlyRate == Put(None)
    ensures u.salaryType != Some("monthly") ==> p.monthlySalary == Put(None)
    ensures u.salaryType == Some("hourly") ==> p.hourlyRate == Submitted(u.hourlyRate)
    ensures u.salaryType == Some("monthly") ==> p.monthlySalary == Submitted(u.monthlySalary)
    ensures p.salaryType == (if u.salaryType.Some? then Put(u.salaryType.value) else Keep)
  {
    ProfilePatch(
      if u.salaryType.Some? then Put(u.salaryType.value) else Keep,
      if u.salaryType == Some("hourly") then Submitted(u.hourlyRate) else Put(None),
      if u.salaryType == Some("monthly") then Submitted(u.monthlySalary) else Put(None))
  }

  function ApplyProfile(p: Profile, patch: ProfilePatch): Profile {
    p.(salaryType := Apply(p.salaryType, patch.salaryType),
       hourlyRate := Apply(p.hourlyRate, patch.hourlyRate),
       monthlySalary := Apply(p.monthlySalary, patch.monthlySalary))
  }

  /**
   * `update(patch).eq("id", id)`: every row with that id gets the patched salary
   * columns and keeps all its other columns; the other rows are kept.
   */
  function UpdateWhere(profiles: seq<Profile>, id: UserId, patch: ProfilePatch): (r: seq<Profile>)
    ensures |r| == |profiles|
    ensures forall i :: 0 <= i < |r| && profiles[i].id == id ==>
      && r[i].(salaryType := profiles[i].salaryType, hourlyRate := profiles[i].hourlyRate,
               monthlySalary := profiles[i].monthlySalary) == profiles[i]
      && r[i].salaryType == Apply(profiles[i].salaryType, patch.salaryType)
      && r[i].hourlyRate == Apply(profiles[i].hourlyRate, patch.hourlyRate)
      && r[i].monthlySalary == Apply(profiles[i].monthlySalary, patch.monthlySalary)
    ensures forall i :: 0 <= i < |r| && profiles[i].id != id ==> r[i] == profiles[i]
  {
    seq(|profiles|, i requires 0 <= i < |profiles| => if profiles[i].id == id then ApplyProfile(profiles[i], patch) else profiles[i])
  }

  /**
   * After the normalised update a patched profile has at most one of hourly
   * rate and monthly salary set, and the one it has matches its pay type.
   */
  lemma {:induction false} NormalisedAtMostOneRate(profiles: seq<Profile>, id: UserId, u: NewUser)
    ensures var r := UpdateWhere(profiles, id, Normalise(u));
      forall i :: 0 <= i < |r| && profiles[i].id == id ==>
        && !(r[i].hourlyRate.Some? && r[i].monthlySalary.Some?)
        && (r[i].hourlyRate.Some? ==> r[i].salaryType == "hourly")
        && (r[i].monthlySalary.Some? ==> r[i].salaryType == "monthly")
  {
    var r := UpdateWhere(profiles, id, Normalise(u));
    forall i | 0 <= i < |r| && profiles[i].id == id
      ensures !(r[i].hourlyRate.Some? && r[i].monthlySalary.Some?)
      ensures r[i].hourlyRate.Some? ==> r[i].salaryType == "hourly"
      ensures r[i].monthlySalary.Some? ==> r[i].salaryType == "monthly"
    {
      assert r[i] == ApplyProfile(profiles[i], Normalise(u));
    }
  }

  /** Rows of other people are not touched by the update. */
  lemma OthersUntouched(profiles: seq<Profile>, id: UserId, patch: ProfilePatch)
    ensures var r := UpdateWhere(profiles, id, patch);
      forall i :: 0 <= i < |r| && profiles[i].id != id ==> r[i] == profiles[i]
  {
  }

  /** `authError.message || "Failed to create user"`. */
  function AuthErrorText(message: string): (s: string)
    ensures s != ""
    ensures message != "" ==> s == message
  {
    if message != "" then message else "Failed to create user"
  }

  /** `new_values` of the audit row: the submitted fields, not the normalised ones, and never the password. */
  function UserSnapshot(u: NewUser): (m: Snapshot)
    ensures m.Keys <= {"email", "full_name", "role", "salary_type", "hourly_rate", "monthly_salary"}
    ensures "email" in m && "password" !in m
    ensures "full_name" in m <==> u.fullName.Some?
    ensures "role" in m <==> u.role.Some?
    ensures "salary_type" in m <==> u.salaryType.Some?
    ensures "hourly_rate" in m <==> u.hourlyRate.Some?
    ensures "monthly_salary" in m <==> u.monthlySalary.Some?
  {
    var m := map["email" := Str(u.email)];
    var m := PutOpt(m, "full_name", if u.fullName.Some? then Some(Str(u.fullName.value)) else None);
    var m := PutOpt(m, "role", if u.role.Some? then Some(Str(u.role.value)) else None);
    var m := PutOpt(m, "salary_type", if u.salaryType.Some? then Some(Str(u.salaryType.value)) else None);
    var m := PutOpt(m, "hourly_rate", if u.hourlyRate.Some? then Some(Int(u.hourlyRate.value)) else None);
    PutOpt(m, "monthly_salary", if u.monthlySalary.Some? then Some(Int(u.monthlySalary.value)) else None)
  }

  /** Each logged field holds the submitted value as given. */
  lemma UserSnapshotValues(u: NewUser)
    ensures var m := UserSnapshot(u);
      && m["email"] == Str(u.email)
      && (u.fullName.Some? ==> m["full_name"] == Str(u.fullName.value))
      && (u.role.Some? ==> m["role"] == Str(u.role.value))
      && (u.salaryType.Some? ==> m["salary_type"] == Str(u.salaryType.value))
      && (u.hourlyRate.Some? ==> m["hourly_rate"] == Int(u.hourlyRate.value))
      && (u.monthlySalary.Some? ==> m["monthly_salary"] == Int(u.monthlySalary.value))
  {
  }

  /**
   * The log keeps what was submitted: an hourly rate sent with monthly pay is
   * recorded in the audit row although the profile stores null for it.
   */
  lemma AuditRecordsRawRate(profiles: seq<Profile>, id: UserId, u: NewUser, i: nat)
    requires u.salaryType == Some("monthly") && u.hourlyRate.Some?
    requires i < |profiles| && profiles[i].id == id
    ensures UserSnapshot(u)["hourly_rate"] == Int(u.hourlyRate.value)
    ensures UpdateWhere(profiles, id, Normalise(u))[i].hourlyRate == None
  {
  }

  /** The audit row of a new account: the account's id and the submitted fields without the password. */
  function UserAudit(caller: UserId, id: UserId, u: NewUser): (l: AuditEntry)
    ensures l.userId == caller && l.action == "create_user" && l.entityType == "profile"
    ensures l.entityId == Some(id) && l.oldValues.None? && l.newValues == Some(UserSnapshot(u))
  {
    AuditEntry(caller, "create_user", "profile", Some(id), None, Some(UserSnapshot(u)))
  }

  /**
   * The creation handler. `auth` is the authentication service's answer and
   * `updateFails` whether the profile update reported an error, which the
   * handler only logs; `accountRequested` says whether the service was asked
   * to create an account at all.
   */
  method Post(db: Db, caller: Option<UserId>, u: NewUser, auth: AuthOutcome, updateFails: bool)
    returns (res: Result<UserId>, accountRequested: bool)
    requires db.Valid()
    modifies db`profiles, db`auditLogs
    ensures db.Valid()
    ensures accountRequested <==> caller.Some? && IsAdmin(RoleOf(old(db.profiles), caller.value))
    ensures caller.None? ==> res == Fail(Unauthorized)
    ensures caller.Some? && !IsAdmin(RoleOf(old(db.profiles), caller.value)) ==> res == Fail(Forbidden)
    ensures caller.Some? && IsAdmin(RoleOf(old(db.profiles), caller.value)) && auth.AuthFailed?
            ==> res == Fail(ApiError(400, AuthErrorText(auth.message)))
    ensures res.Ok? <==> caller.Some? && IsAdmin(RoleOf(old(db.profiles), caller.value)) && auth.AuthCreated?
    ensures res.Fail? ==> unchanged(db)
    ensures res.Ok? ==>
      && res.value == auth.id
      && db.profiles == (if updateFails then old(db.profiles) else UpdateWhere(old(db.profiles), auth.id, Normalise(u)))
      && db.auditLogs == old(db.auditLogs) + [UserAudit(caller.value, auth.id, u)]
  {
    if caller.None? {
      return Fail(Unauthorized), false;
    }
    if !IsAdmin(RoleOf(db.profiles, caller.value)) {
      return Fail(Forbidden), false;
    }
    accountRequested := true;
    if auth.AuthFailed? {
      return Fail(ApiError(400, AuthErrorText(auth.message))), accountRequested;
    }
    if !updateFails {
      db.profiles := UpdateWhere(db.profiles, auth.id, Normalise(u));
    }
    db.auditLogs := db.auditLogs + [UserAudit(caller.value, auth.id, u)];
    res := Ok(auth.id);
  }
}
