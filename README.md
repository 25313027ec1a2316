# Employee management: a verified model of the request handlers and helpers

This project models the core of an employee-management web application.
Employees check in and out; the check-out computes the hours worked.
Administrators create attendance entries, salary records, notifications and
user accounts. Every change is appended to an audit log. Pages are guarded by
role.

The hosted database becomes the class `Store.Db`. It holds one sequence of rows
per table and an id counter standing for the database's id generator. There is
one module per route file:

- `CheckInRoute`, `CheckOutRoute` and `AttendanceRoute` cover attendance;
- `SalaryRoute`, `NotificationsRoute` and `UsersRoute` cover the rest.

Each `POST` handler is a module-level method that takes the store `db: Db` and
changes only the tables its `modifies` clause names. Its `ensures` states which error it returns and in which order
(401, then 403, 404 or 400). It also states which row is appended or updated,
which audit entry is appended, and that nothing changes on failure. It
preserves the store invariant `Db.Valid`:

- attendance, salary and notification ids are below the counter, and attendance ids are distinct;
- a closed session's `total_hours` is derived from its own check-in and check-out.

A `GET` handler is a pure function over the tables. Lemmas state the rows it
returns: exactly the rows the caller may see, sorted by the ordering column, as
a permutation of the selected rows.

The helpers live in two modules:

- `Hours` holds the elapsed-hours arithmetic;
- `TextUtils` holds the string and colour helpers.

`Middleware` is the page guard's redirect decision. `LoginForm` is the sign-in
form's validation and redirect. `AttendanceChart` is the weekly per-day
histogram.

Units:

- Instants are integer milliseconds.
- Money is an integer number of the smallest currency unit.
- `total_hours` is an integer number of hundredths of an hour, the value `toFixed(2)` produces.

Dafny's `/` and `%` are Euclidean. `Hours.TruncDiv` and `Hours.JsRem` spell out
the truncation toward zero of `differenceInHours`/`differenceInMinutes` and
JavaScript's `%`, whose remainder takes the dividend's sign.
Lookups that end in `.single()` yield a row only when exactly one row matches.
This is `RoleOf` and the check-in pre-check. So a missing profile means "not
an admin", and two or more open sessions since midnight do not block a further
check-in. The check-out lookup by id also ends in `.single()`. Attendance ids
are distinct under `Db.Valid`, so it finds the one row with that id
(`CheckOutRoute.FindUnique`).

Two consequences of the code as written:

- A check-in is refused only when exactly one session has been open since the local midnight given; a session left open from an earlier day does not block it (`StaleSessionDoesNotBlock`, `CheckInKeepsOneOpenSession`).
- Hours truncate toward zero, so a manual entry whose check-out precedes its check-in gets a negative total, the truncated value rather than the floor (`MinutesDecompose`).

## Model

| member | source | states |
|---|---|---|
| Tables.SortDesc | src/app/api/attendance/route.ts:28-31 | `order(column, descending)`: the result is sorted by the key, newest first, and is a permutation of its input |
| Types.RoleOf | src/app/api/attendance/route.ts:16-20 | the profile lookup yields a role exactly when one profile row has the caller's id, and that role belongs to a row with that id |
| Hours.CalculateHours | src/lib/utils.ts:53-57 | the result in hundredths is the nearest hundredth to (whole minutes elapsed)/60, within a third of a hundredth, for either sign |
| Hours.ToFixed2Sixtieths | src/lib/utils.ts:56 | `toFixed(2)` of m/60 hours is within a third of a hundredth of 5m/3 hundredths, for either sign of m |
| Hours.MinutesDecompose | src/lib/utils.ts:54-55 | truncated hours times 60 plus the truncated minutes remainder is exactly the whole minutes elapsed, for either sign |
| Hours.CalculateHoursClosedForm | src/lib/utils.ts:53-57 | for end at or after start, the total is (5m+1)/3 hundredths for m whole minutes |
| Hours.SubMinuteIsZero | src/lib/utils.ts:54-56 | instants less than a minute apart, in either order, give 0 |
| Hours.SameMinutesSameHours | src/lib/utils.ts:54-56 | the total depends only on the whole minutes elapsed: seconds are truncated |
| Hours.WholeMinutesMonotone | src/lib/utils.ts:55 | the whole minutes elapsed never decrease as the end moves later |
| Hours.CalculateHoursMonotone | src/lib/utils.ts:53-57 | for a fixed start, the total never decreases as the end moves later |
| Hours.CalculateHoursExample | src/lib/utils.ts:53-57 | 2 h 32 min 45 s gives 2.53, not 2.55 |
| TextUtils.SliceTo | src/lib/utils.ts:109 | `slice(0, end)` is a prefix of the text, of length `end` clamped to the text for a non-negative end, and `|text| + end` clamped at 0 for a negative one |
| TextUtils.Truncate | src/lib/utils.ts:107-110 | a text that fits is returned unchanged; otherwise the first n characters and "...", of length n+3; a negative length slices from the back |
| TextUtils.TruncateKeepsPrefix | src/lib/utils.ts:107-110 | a truncated text starts with the kept prefix of the original and ends with "..." |
| TextUtils.Split | src/lib/utils.ts:71 | `split(" ")` gives at least one piece, no piece contains a space, and the pieces joined with single spaces give back the string |
| TextUtils.Upper | src/lib/utils.ts:74 | `toUpperCase` keeps the length and upper-cases each character |
| TextUtils.GetInitials | src/lib/utils.ts:69-76 | at most two characters |
| TextUtils.FirstCharsOfSplit | src/lib/utils.ts:70-73 | the first characters of the split pieces are exactly the word starts of the name (non-space characters at the front or after a space) |
| TextUtils.GetInitialsAreWordStarts | src/lib/utils.ts:69-76 | the initials are the first two upper-cased word starts; empty words contribute nothing |
| TextUtils.WordStartsFrom | src/lib/utils.ts:70-73 | every word start is a character of the name and not a space |
| TextUtils.IsValidEmail | src/lib/utils.ts:81-84 | an address the pattern accepts has at least five characters and no whitespace |
| TextUtils.IsValidEmailShape | src/lib/utils.ts:81-84 | the pattern holds iff: no whitespace; exactly one '@', not first; a '.' after the '@' that is neither next to it nor last |
| TextUtils.FirstCodeUnit | src/lib/utils.ts:100 | `charCodeAt(0)` is the character's code for a character below U+10000, and a high surrogate (0xD800 to 0xDBFF) for one beyond |
| TextUtils.GetAvatarColor | src/lib/utils.ts:89-102 | a colour exactly for a non-empty name, always one of the eight palette entries |
| TextUtils.AvatarColorByFirstChar | src/lib/utils.ts:100-101 | the colour depends on the first character alone: names whose first code units agree mod 8 share a colour |
| TextUtils.GetPriorityColor | src/lib/utils.ts:115-124 | red exactly for "urgent", yellow exactly for "important", blue for every other input |
| TextUtils.GetStatusColor | src/lib/utils.ts:129-138 | green exactly for "paid", yellow exactly for "pending", grey for every other input |
| Middleware.Decide | src/lib/supabase/middleware.ts:36-98 | signed out on a protected page goes to "/login"; signed in on "/login" goes to the role's area; a non-admin on "/admin" goes to "/employee"; an admin on "/employee" goes to "/admin"; every target is one of the three pages |
| Middleware.PrefixesExclusive | src/lib/supabase/middleware.ts:36-39 | no path is both the sign-in page and protected, or both an employee and an admin page |
| Middleware.PassThroughCases | src/lib/supabase/middleware.ts:42-98 | the request passes through iff it is one of the four unredirected combinations, including a signed-out visitor on "/" |
| Middleware.PassThroughIsAuthorised | src/lib/supabase/middleware.ts:42-98 | a page that passes belongs to the caller's own area, and a signed-out caller never reaches a protected page |
| Middleware.NoRedirectLoop | src/lib/supabase/middleware.ts:36-98 | deciding again on any redirect target passes through: there is no redirect loop |
| Store.FindAttendance | src/app/api/attendance/check-out/route.ts:20-24 | the lookup by id gives a position holding that id, or none, and then no row has that id |
| CheckInRoute.CheckInAudit | src/app/api/attendance/check-in/route.ts:61-67 | the audit entry is by the session's owner (the body's `user_id`, which equals the caller), action "check_in", entity type "attendance", the new session's id, no old values, and new values holding only the session's check-in |
| CheckInRoute.Post | src/app/api/attendance/check-in/route.ts:11-67 | 401 without a caller, 403 when the body's `user_id` is not the caller, 400 exactly when one open session since midnight exists, with nothing changed on failure; otherwise one open session with a fresh id and one "check_in" audit entry are appended, the store invariant is kept, and a caller who had no open session since midnight now has exactly one |
| CheckInRoute.OpenSince | src/app/api/attendance/check-in/route.ts:27-32 | the pre-check selects exactly the stored rows of that person that began at or after midnight and have no check-out |
| CheckInRoute.NewSession | src/app/api/attendance/check-in/route.ts:45-48 | the inserted row is an open session of the person starting now, with no hours and no notes; it is selected by the pre-check of any midnight not after now |
| CheckInRoute.OpenSinceAppend | src/app/api/attendance/check-in/route.ts:27-33 | appending a row adds it to the pre-check's selection exactly when it is an open session of that person since midnight |
| CheckInRoute.StaleSessionDoesNotBlock | src/app/api/attendance/check-in/route.ts:24-35 | a session left open before today's start does not change the pre-check |
| CheckInRoute.CheckInKeepsOneOpenSession | src/app/api/attendance/check-in/route.ts:27-49 | starting from at most one open session since midnight, the state after the handler has exactly one |
| CheckOutRoute.Closed | src/app/api/attendance/check-out/route.ts:46-58 | the closed row keeps id, owner, check-in and notes, and carries the check-out time and the hours derived from them |
| CheckOutRoute.Target | src/app/api/attendance/check-out/route.ts:24-38 | the position of a row whose id is the body's `attendance_id`; none when the id is missing, and none exactly when no row has it |
| CheckOutRoute.CheckOutAudit | src/app/api/attendance/check-out/route.ts:69-76 | the audit entry is by the caller, action "check_out", entity type "attendance", the row's id, old values {check_out: null, total_hours: null}, and new values the closed row's check-out and hours |
| CheckOutRoute.CheckOutAuditRecordsClosing | src/app/api/attendance/check-out/route.ts:46-76 | for a closed row, the logged check-out is the closing time and the logged hours are derived from the row's own check-in and that time |
| CheckOutRoute.Post | src/app/api/attendance/check-out/route.ts:12-76 | errors in the order 401, 404 (missing or unknown id), 403 (not the owner), 400 (already closed), with nothing changed on failure; otherwise only that row is replaced by its closed form and one "check_out" audit entry with the old and new values is appended |
| CheckOutRoute.UpdateValid | src/app/api/attendance/check-out/route.ts:50-58 | replacing one row by its closed form keeps ids distinct and hours derived |
| CheckOutRoute.CheckOutTwice | src/app/api/attendance/check-out/route.ts:39-58 | after a successful check-out, the same request again fails with 400: a session closes once |
| CheckOutRoute.FindUnique | src/app/api/attendance/check-out/route.ts:20-24 | with distinct ids, the lookup finds the only row carrying the id |
| AttendanceRoute.Get | src/app/api/attendance/route.ts:11-62 | 401 exactly without a caller; otherwise the list is ordered by check-in, newest first |
| AttendanceRoute.GetContents | src/app/api/attendance/route.ts:33-50 | a row is listed iff it is stored, the caller is an admin or owns it, it matches an admin's `user_id`, and its check-in is within the given dates; each row as often as it is stored |
| AttendanceRoute.EmployeeSeesOnlyOwnRows | src/app/api/attendance/route.ts:39-42 | a non-admin sees only their own rows, and changing `user_id` changes nothing |
| AttendanceRoute.AdminSeesAllInRange | src/app/api/attendance/route.ts:34-38 | an admin without `user_id` sees every row in the date range |
| AttendanceRoute.ManualRow | src/app/api/attendance/route.ts:97-107 | the inserted row carries the submitted fields, and hours exactly when a check-out is given, derived from check-in and check-out |
| AttendanceRoute.ManualSnapshot | src/app/api/attendance/route.ts:97-107 | the logged data holds user and check-in, notes only when given, and check-out and hours (derived from check-in and check-out) only when a check-out is given; it has no other key |
| AttendanceRoute.ManualSnapshotMatchesRow | src/app/api/attendance/route.ts:124-130 | the logged snapshot agrees with the inserted row on every column it records |
| AttendanceRoute.ManualAudit | src/app/api/attendance/route.ts:124-130 | the audit entry is by the caller, action "create_attendance", entity type "attendance", the inserted row's id, no old values, and new values the logged body `ManualSnapshot` |
| AttendanceRoute.Post | src/app/api/attendance/route.ts:79-130 | 401 without a caller, 403 for a non-admin, with nothing changed; otherwise one row and one "create_attendance" audit entry are appended, and the store invariant is kept |
| AttendanceRoute.NewRowVisibleToOwner | src/app/api/attendance/route.ts:34-50 | a row added for a person is in that person's own list whenever its check-in is in range |
| SalaryRoute.Get | src/app/api/salary/route.ts:11-55 | 401 exactly without a caller; otherwise ordered by period start, latest first |
| SalaryRoute.GetContents | src/app/api/salary/route.ts:33-43 | a record is listed iff it is stored and: for a non-admin it is their own; for an admin it matches `user_id` and `status` when each is given; each as often as stored |
| SalaryRoute.EmployeeIgnoresParameters | src/app/api/salary/route.ts:40-43 | for a non-admin the parameters make no difference, and exactly their own records are listed |
| SalaryRoute.AdminStatusNarrows | src/app/api/salary/route.ts:33-39 | an admin's two filters are independent: adding either keeps a subset of the list without it |
| SalaryRoute.NewRecord | src/app/api/salary/route.ts:93-115 | the record is pending, created by the caller, with bonus and deductions defaulting to 0 and the total base + bonus − deductions |
| SalaryRoute.NegativeTotalAllowed | src/app/api/salary/route.ts:99 | deductions above base plus bonus give a negative total: nothing clamps it |
| SalaryRoute.TotalDefaultsToBase | src/app/api/salary/route.ts:93-99 | with neither bonus nor deductions given, the total is the base amount |
| SalaryRoute.SalarySnapshot | src/app/api/salary/route.ts:133-141 | the logged values are exactly the person, the period, and the money fields after defaulting, total included |
| SalaryRoute.SnapshotTotalConsistent | src/app/api/salary/route.ts:128-142 | the logged total equals the logged base plus bonus minus deductions |
| SalaryRoute.SalaryAudit | src/app/api/salary/route.ts:128-142 | the audit entry is by the caller, action "create_salary", entity type "salary_record", the new record's id, no old values, and new values `SalarySnapshot` of the record |
| SalaryRoute.Post | src/app/api/salary/route.ts:72-142 | 401 without a caller, 403 for a non-admin, with nothing changed; otherwise one record and one "create_salary" audit entry are appended, and the store invariant is kept |
| SalaryRoute.NewRecordVisibleToOwner | src/app/api/salary/route.ts:40-43 | a record created for an employee is in that employee's own list |
| NotificationsRoute.FindRead | src/app/api/notifications/route.ts:62 | `find` yields the first receipt in table order for that notification, or none exactly when no receipt has its id |
| NotificationsRoute.FirstOfCaller | src/app/api/notifications/route.ts:54-62 | reference search: the caller's first receipt for a notification in table order, or none when the caller has no receipt for it |
| NotificationsRoute.FindReadFiltered | src/app/api/notifications/route.ts:54-62 | searching a selection that keeps exactly the caller's receipts for the notification finds the caller's first receipt |
| NotificationsRoute.View | src/app/api/notifications/route.ts:61-68 | a notification is unchanged and marked read exactly when a receipt for it exists; `read_at` and `notification_reads` hold the time of the first such receipt, and are absent and empty otherwise |
| NotificationsRoute.Merge | src/app/api/notifications/route.ts:61-69 | the merge keeps the length of the list |
| NotificationsRoute.Get | src/app/api/notifications/route.ts:11-71 | 401 exactly without a caller |
| NotificationsRoute.GetFeed | src/app/api/notifications/route.ts:23-38 | the feed holds exactly the stored notifications addressed to "all" or to the caller's role ("admin" for an admin, "employee" otherwise), newest first, each as often as stored |
| NotificationsRoute.FindReadOfCaller | src/app/api/notifications/route.ts:54-62 | among the caller's receipts for the listed notifications, `find` yields one for a notification iff the caller has a receipt for it, and it is the caller's first receipt for that notification in table order |
| NotificationsRoute.ReadStatusMatchesReceipts | src/app/api/notifications/route.ts:54-67 | `is_read` holds iff the caller has a receipt; then `read_at` is the time of the caller's first receipt for it and the embedded list holds just that time, else both are empty |
| NotificationsRoute.NewNotification | src/app/api/notifications/route.ts:108-114 | the inserted notification keeps title and message, is created by the caller at the given time, and takes priority `normal` and audience `all` exactly when those fields are absent or empty |
| NotificationsRoute.OrDefault | src/app/api/notifications/route.ts:111-112 | `value \|\| fallback`: an absent or empty value falls back |
| NotificationsRoute.NotificationSnapshot | src/app/api/notifications/route.ts:132 | the logged fields are title and message, and priority and target role only when submitted, each with the raw submitted value rather than the stored default |
| NotificationsRoute.NotificationAudit | src/app/api/notifications/route.ts:127-133 | the audit entry is by the caller, action "create_notification", entity type "notification", the new notification's id, no old values, and new values the fields as submitted (`NotificationSnapshot`) |
| NotificationsRoute.Post | src/app/api/notifications/route.ts:88-133 | 401 without a caller, 403 for a non-admin, with nothing changed; otherwise one notification with the defaults and one "create_notification" audit entry are appended |
| NotificationsRoute.DefaultsReachEveryone | src/app/api/notifications/route.ts:111-112 | without a target a notification reaches every role, without a priority it is "normal", and one for employees does not reach admins |
| NotificationsRoute.NewNotificationInFeed | src/app/api/notifications/route.ts:34-38 | a new notification is in the feed of every caller it is addressed to |
| UsersRoute.Get | src/app/api/users/route.ts:12-31 | 401 without a caller, 403 for a non-admin; an admin gets every profile, newest first, as a permutation |
| UsersRoute.Normalise | src/app/api/users/route.ts:107-111 | the hourly rate is kept only for "hourly" and the monthly salary only for "monthly", each otherwise set to null; an absent field leaves its column untouched |
| UsersRoute.UpdateWhere | src/app/api/users/route.ts:105-112 | the update keeps the number of rows; a row with the id gets the patched salary columns (a dropped key keeps its value) and keeps every other column; rows of other users are unchanged |
| UsersRoute.NormalisedAtMostOneRate | src/app/api/users/route.ts:107-111 | after the update a patched profile has at most one of the two rates set, and the one it has matches its pay type |
| UsersRoute.OthersUntouched | src/app/api/users/route.ts:112 | rows of other people are not touched by the update |
| UsersRoute.AuthErrorText | src/app/api/users/route.ts:99 | the error text is never empty: the service's message, else "Failed to create user" |
| UsersRoute.UserSnapshot | src/app/api/users/route.ts:124-131 | the logged keys are email and, each only when submitted, full name, role, pay type and the two rates; no other key, never the password |
| UsersRoute.UserSnapshotValues | src/app/api/users/route.ts:124-131 | each logged field holds the submitted value: email, full name, role, pay type and both rates as given |
| UsersRoute.AuditRecordsRawRate | src/app/api/users/route.ts:107-131 | an hourly rate sent with monthly pay is logged while the profile stores null for it |
| UsersRoute.UserAudit | src/app/api/users/route.ts:119-132 | the audit entry is by the caller, action "create_user", entity type "profile", the new account's id, no old values, and new values the submitted fields without the password (`UserSnapshot`) |
| UsersRoute.Post | src/app/api/users/route.ts:58-137 | 401, then 403 before any account is requested, then 400 with the service's message and nothing changed; otherwise the profile is patched unless the update failed, one "create_user" audit entry is appended either way, and the request succeeds |
| LoginForm.EmailError | src/components/auth/LoginForm.tsx:22-26 | "Email is required" exactly for an empty address, "Invalid email format" exactly for a non-empty one failing the pattern, nothing otherwise |
| LoginForm.PasswordError | src/components/auth/LoginForm.tsx:28-32 | "Password is required" exactly for an empty password, the length message exactly for one to five characters, nothing from six on |
| LoginForm.PostLoginRedirect | src/components/auth/LoginForm.tsx:68-72 | "/admin" exactly for an admin, "/employee" for everyone else, including a missing profile |
| LoginForm.RedirectAgreesWithGuard | src/components/auth/LoginForm.tsx:68-72 | the form's target is the guard's redirect from "/login", and the guard lets the person stay there |
| LoginForm.Form.constructor | src/components/auth/LoginForm.tsx:12-17 | the form starts empty, not loading, without errors |
| LoginForm.Form.Validate | src/components/auth/LoginForm.tsx:19-36 | the errors become each field's single error, and the result is true iff neither field has one, iff the address matches the pattern and the password has six characters or more |
| LoginForm.Form.HandleSubmit | src/components/auth/LoginForm.tsx:38-80 | sign-in is attempted iff validation passes; a signed-in person is sent to their role's page; nothing navigates otherwise; loading is cleared after an attempt |
| AttendanceChart.DayCountIsSelection | src/components/admin/AttendanceChart.tsx:36-42 | a day's count is the number of records at or after the week start falling on that day |
| AttendanceChart.DayCountZero | src/components/admin/AttendanceChart.tsx:31-42 | a day on which no in-week record falls counts 0 |
| AttendanceChart.FirstSeen | src/components/admin/AttendanceChart.tsx:29-34 | reference order of the first loop's keys: distinct names, exactly those of the input, each where it first occurs |
| AttendanceChart.Entries | src/components/admin/AttendanceChart.tsx:44-47 | one point per key, in the keys' insertion order, each carrying its bucket's value |
| AttendanceChart.TotalEntries | src/components/admin/AttendanceChart.tsx:44-47 | the points add up to the sum of the bucket values |
| AttendanceChart.SumAlongIncrement | src/components/admin/AttendanceChart.tsx:40 | adding one to an existing bucket adds one to the sum |
| AttendanceChart.SumAlongAppend | src/components/admin/AttendanceChart.tsx:40 | creating a bucket with a value adds that value to the sum |
| AttendanceChart.InitBuckets | src/components/admin/AttendanceChart.tsx:29-34 | the keys are exactly the day names of the week so far, distinct, in first-seen order, each with a zero bucket |
| AttendanceChart.CountingKeepsBuckets | src/components/admin/AttendanceChart.tsx:36-42 | counting keeps keys distinct and equal to the map's keys, keeps the first loop's keys, and only appends to their order |
| AttendanceChart.NewBucketsFromRecords | src/components/admin/AttendanceChart.tsx:38-41 | a bucket the first loop did not create is the day of some in-week record |
| AttendanceChart.CountsAreDayCounts | src/components/admin/AttendanceChart.tsx:36-42 | from zero buckets, each bucket ends as its day's in-week count, and a day without a bucket counts 0 |
| AttendanceChart.CountsSum | src/components/admin/AttendanceChart.tsx:36-42 | the buckets add up to the number of in-week records |
| AttendanceChart.CountRecords | src/components/admin/AttendanceChart.tsx:36-42 | each bucket ends as its day's in-week count; the first loop's keys are kept and stay a prefix of the order; a new key is the day of some in-week record; the buckets add up to the number of in-week records |
| AttendanceChart.Bucket | src/components/admin/AttendanceChart.tsx:24-47 | no data gives an empty series; otherwise the bars start with the week's days in first-seen order, every other bar is the day of an in-week record, the days are distinct, each bar is its day's in-week count, and the bars add up to the number of in-week records |

## Left out

- Storage and I/O: the database client, authentication, cookies and HTTP responses are replaced by the in-memory store, the caller's id and the service answers passed as parameters. Database errors and thrown exceptions, which give the 500 responses, are not modelled; neither are failed audit inserts, which the handlers never check.
- Clock and calendar: "now", local midnight (check-in), the start of the week, the days of the week so far and the day-name formatter (chart) are parameters. The time zone and `date-fns` are not part of this model.
- Floating point: `toFixed(2)` is modelled exactly on integers, as hundredths of an hour; money is integral. `calculateSalary` (src/lib/utils.ts:62-64) is left out, being floating-point rounding of a product that no core handler uses.
- `cn`, `formatCurrency`, `formatDate`, `formatDateTime`, `formatTime`, `getRelativeTime`: thin wrappers over formatting libraries, with no logic of their own.
- `exportToCSV`: DOM download and `JSON.stringify` of arbitrary values.
- The cookie-copying callback of the middleware (src/lib/supabase/middleware.ts:18-21) is plumbing; only the redirect decision is modelled.
- Joined columns (`profile:profiles(full_name, email)` in the lists and the embedded `notification_reads` before the merge) are not modelled; rows are returned without them.
- The database trigger that creates a profile row for a new account is not part of this model: the users `POST` patches whatever profile rows carry the new id.
- The toast messages of the sign-in form and the `router.refresh()` call are UI effects and are not modelled. A sign-in error and a sign-in without a user both end without navigation.
- Types.RoleOf: `.single()` with two or more matching rows is treated like no row (no role), which is what the library returns; the model does not represent the error object it also reports.
- CheckInRoute.Post: the pre-check and the insert are one atomic step; the race between two concurrent check-ins is not modelled.
- Strings are sequences of code points. Lengths (`truncate`, password length) count code points, not UTF-16 units. `toUpperCase` is modelled for ASCII letters only. `getAvatarColor` uses the high surrogate of a character beyond U+FFFF, as `charCodeAt(0)` does.
- TextUtils.Truncate: only integer lengths are modelled; a fractional `length` is not.
- AttendanceChart.Entries: `Object.entries` lists keys in insertion order, which holds for the day names used; integer-like keys, which JavaScript lists first, are not modelled.
- NotificationsRoute.FindRead: the `notification_reads` query has no ordering, so the order of the `reads` array is up to the database; it is modelled as the table's order, and "first receipt" means first in that order.
- Request bodies are typed: a field is present with the right type or absent (None). Explicit `null` values, wrong types, and a missing `base_amount`, `check_in` or, in the manual attendance entry, `user_id` (rejected by the database) are not modelled. An absent or empty query parameter is None.
- SalaryRoute.GetContents: a `status` parameter naming no status matches no record; the database might instead report an error (a 500).
- Column defaults of the database (`created_at`, `updated_at`, `paid_at`) are not modelled, except `created_at` of a notification, which is passed in as `now`.
- src/app/api/salary/[id]/route.ts (the salary update) and src/app/api/notifications/[id]/read/route.ts (marking a notification read) are not part of this model; the read receipts are given to the store as data.
- Store.Db.Valid: does not require a salary total to be base plus bonus minus deductions. The salary update (src/app/api/salary/[id]/route.ts:39-44) writes the submitted columns without recomputing `total_amount`, so the real store does not keep that equation. Only the create handler establishes it, for the row it inserts (`SalaryRoute.NewRecord`).
