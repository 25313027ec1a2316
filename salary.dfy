/**
 * src/app/api/salary/route.ts: the salary-record list (`GET`, latest period
 * first, scoped by role) and record creation by an admin (`POST`).
 */
module SalaryRoute {
  import opened Types
  import opened Tables
  import opened Store

  /** The query string; an absent or empty parameter is None. */
  datatype SalaryQuery = SalaryQuery(userId: Option<UserId>, status: Option<string>)

  function PeriodKey(s: SalaryRecord): int { s.periodStart }

  /** The filters the handler applies: both parameters for an admin, only the caller's id otherwise. */
  function Effective(role: Option<Role>, caller: UserId, q: SalaryQuery): SalaryQuery {
    if IsAdmin(role) then q else SalaryQuery(Some(caller), None)
  }

  predicate Selected(f: SalaryQuery, s: SalaryRecord) {
    (f.userId.None? || s.userId == f.userId.value) && (f.status.None? || StatusName(s.status) == f.status.value)
  }

  function Selector(f: SalaryQuery): SalaryRecord -> bool {
    (s: SalaryRecord) => Selected(f, s)
  }

  /** The list handler over the `profiles` and `salary_records` tables. */
  function Get(profiles: seq<Profile>, rows: seq<SalaryRecord>, caller: Option<UserId>, q: SalaryQuery)
    : (r: Result<seq<SalaryRecord>>)
    ensures r.Fail? <==> caller.None?
    ensures r.Fail? ==> r.error == Unauthorized
    ensures r.Ok? ==> SortedDesc(r.value, PeriodKey)
  {
    if caller.None? then Fail(Unauthorized)
    else Ok(SortDesc(Filter(rows, Selector(Effective(RoleOf(profiles, caller.value), caller.value, q))), PeriodKey))
  }

  /** What the list holds, for either role, each record as often as it is stored. */
  lemma {:induction false} GetContents(profiles: seq<Profile>, rows: seq<SalaryRecord>, caller: UserId, q: SalaryQuery)
    ensures var r := Get(profiles, rows, Some(caller), q).value;
      var role := RoleOf(profiles, caller);
      && (forall s :: s in r <==>
            && s in rows
            && (!IsAdmin(role) ==> s.userId == caller)
            && (IsAdmin(role) && q.userId.Some? ==> s.userId == q.userId.value)
            && (IsAdmin(role) && q.status.Some? ==> StatusName(s.status) == q.status.value))
      && (forall s :: s in rows && Selected(Effective(role, caller, q), s) ==> multiset(r)[s] == multiset(rows)[s])
  {
    var f := Effective(RoleOf(profiles, caller), caller, q);
    SortFilterMembers(rows, Selector(f), PeriodKey);
    FilterMultiset(rows, Selector(f));
  }

  /** A caller who is not an admin gets all of their own records, whatever the parameters say. */
  lemma {:induction false} EmployeeIgnoresParameters(profiles: seq<Profile>, rows: seq<SalaryRecord>, caller: UserId, q: SalaryQuery, q2: SalaryQuery)
    requires !IsAdmin(RoleOf(profiles, caller))
    ensures Get(profiles, rows, Some(caller), q) == Get(profiles, rows, Some(caller), q2)
    ensures forall s :: s in rows ==> (s in Get(profiles, rows, Some(caller), q).value <==> s.userId == caller)
  {
    GetContents(profiles, rows, caller, q);
  }

  /** For an admin the two filters are independent: the status filter keeps a subset of the unfiltered list. */
  lemma {:induction false} AdminStatusNarrows(profiles: seq<Profile>, rows: seq<SalaryRecord>, caller: UserId, q: SalaryQuery)
    requires IsAdmin(RoleOf(profiles, caller))
    ensures forall s :: s in Get(profiles, rows, Some(caller), q).value ==> s in Get(profiles, rows, Some(caller), q.(status := None)).value
    ensures forall s :: s in Get(profiles, rows, Some(caller), q).value ==> s in Get(profiles, rows, Some(caller), q.(userId := None)).value
  {
    GetContents(profiles, rows, caller, q);
    GetContents(profiles, rows, caller, q.(status := None));
    GetContents(profiles, rows, caller, q.(userId := None));
  }

  /** The body of a new record; `bonus` and `deductions` are None when absent. */
  datatype SalaryInput = SalaryInput(
    userId: UserId,
    periodStart: Day,
    periodEnd: Day,
    baseAmount: Money,
    bonus: Option<Money>,
    deductions: Option<Money>,
    hoursWorked: Option<int>,
    notes: Option<string>)

  /** A destructuring default: the value when given, 0 otherwise. */
  function OrZero(v: Option<Money>): Money {
    if v.Some? then v.value else 0
  }

  /** The inserted record: pending, created by the caller, its total computed without any clamping. */
  function NewRecord(id: Id, caller: UserId, e: SalaryInput): (s: SalaryRecord)
    ensures s.id == id && s.userId == e.userId && s.createdBy == caller && s.status == Pending
    ensures s.periodStart == e.periodStart && s.periodEnd == e.periodEnd
    ensures s.hoursWorked == e.hoursWorked && s.notes == e.notes
    ensures s.baseAmount == e.baseAmount
    ensures s.bonus == (if e.bonus.Some? then e.bonus.value else 0)
    ensures s.deductions == (if e.deductions.Some? then e.deductions.value else 0)
    ensures TotalConsistent(s)
  {
    var bonus := OrZero(e.bonus);
    var deductions := OrZero(e.deductions);
    SalaryRecord(id, e.userId, e.periodStart, e.periodEnd, e.baseAmount, bonus, deductions,
      e.baseAmount + bonus - deductions, e.hoursWorked, Pending, e.notes, caller)
  }

  /** Deductions larger than base plus bonus give a negative total; nothing clamps it at zero. */
  lemma NegativeTotalAllowed(id: Id, caller: UserId, e: SalaryInput)
    requires OrZero(e.deductions) > e.baseAmount + OrZero(e.bonus)
    ensures NewRecord(id, caller, e).totalAmount < 0
  {
  }

  /** With neither bonus nor deductions given, the total is the base amount. */
  lemma TotalDefaultsToBase(id: Id, caller: UserId, e: SalaryInput)
    requires e.bonus.None? && e.deductions.None?
    ensures NewRecord(id, caller, e).totalAmount == e.baseAmount
  {
  }

  /** `new_values` of the audit row: the money fields after defaulting, and the period. */
  function SalarySnapshot(s: SalaryRecord): (m: Snapshot)
    ensures m.Keys == {"user_id", "period_start", "period_end", "base_amount", "bonus", "deductions", "total_amount"}
    ensures m["user_id"] == Int(s.userId)
    ensures m["period_start"] == Int(s.periodStart) && m["period_end"] == Int(s.periodEnd)
    ensures m["base_amount"] == Int(s.baseAmount) && m["bonus"] == Int(s.bonus)
    ensures m["deductions"] == Int(s.deductions) && m["total_amount"] == Int(s.totalAmount)
  {
    map["user_id" := Int(s.userId), "period_start" := Int(s.periodStart), "period_end" := Int(s.periodEnd),
        "base_amount" := Int(s.baseAmount), "bonus" := Int(s.bonus), "deductions" := Int(s.deductions),
        "total_amount" := Int(s.totalAmount)]
  }

  /** The audit row of a new salary record: its id and the logged values. */
  function SalaryAudit(caller: UserId, s: SalaryRecord): (l: AuditEntry)
    ensures l.userId == caller && l.action == "create_salary" && l.entityType == "salary_record"
    ensures l.entityId == Some(s.id) && l.oldValues.None? && l.newValues == Some(SalarySnapshot(s))
  {
    AuditEntry(caller, "create_salary", "salary_record", Some(s.id), None, Some(SalarySnapshot(s)))
  }

  /** The logged total is the logged base plus the logged bonus minus the logged deductions. */
  lemma SnapshotTotalConsistent(id: Id, caller: UserId, e: SalaryInput)
    ensures var m := SalarySnapshot(NewRecord(id, caller, e));
      m["total_amount"].i == m["base_amount"].i + m["bonus"].i - m["deductions"].i
  {
  }

  /** The creation handler: admins only. */
  method Post(db: Db, caller: Option<UserId>, e: SalaryInput) returns (res: Result<SalaryRecord>)
    requires db.Valid()
    modifies db`salaries, db`auditLogs, db`nextId
    ensures db.Valid()
    ensures caller.None? ==> res == Fail(Unauthorized)
    ensures caller.Some? && !IsAdmin(RoleOf(db.profiles, caller.value)) ==> res == Fail(Forbidden)
    ensures res.Ok? <==> caller.Some? && IsAdmin(RoleOf(db.profiles, caller.value))
    ensures res.Fail? ==> unchanged(db)
    ensures res.Ok? ==>
      && res.value == NewRecord(old(db.nextId), caller.value, e)
      && db.salaries == old(db.salaries) + [res.value]
      && db.auditLogs == old(db.auditLogs) + [SalaryAudit(caller.value, res.value)]
  {
    if caller.None? {
      return Fail(Unauthorized);
    }
    if !IsAdmin(RoleOf(db.profiles, caller.value)) {
      return Fail(Forbidden);
    }
    var id := db.NewId();
    var record := NewRecord(id, caller.value, e);
    db.salaries := db.salaries + [record];
    db.auditLogs := db.auditLogs + [SalaryAudit(caller.value, record)];
    res := Ok(record);
  }

  /** A record created for a person is in that person's own list. */
  lemma {:induction false} NewRecordVisibleToOwner(profiles: seq<Profile>, rows: seq<SalaryRecord>, s: SalaryRecord)
    requires !IsAdmin(RoleOf(profiles, s.userId))
    ensures s in Get(profiles, rows + [s], Some(s.userId), SalaryQuery(None, None)).value
  {
    GetContents(profiles, rows + [s], s.userId, SalaryQuery(None, None));
  }
}
