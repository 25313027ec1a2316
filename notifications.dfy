/**
 * src/app/api/notifications/route.ts: the notification feed for the caller's
 * role with the caller's read status merged in (`GET`), and notification
 * creation by an admin (`POST`).
 */
module NotificationsRoute {
  import opened Types
  import opened Tables
  import opened Store

  function CreatedKey(n: Notification): int { n.createdAt }

  /** The second audience a role sees besides "all". */
  function Audience(role: Option<Role>): string {
    if IsAdmin(role) then "admin" else "employee"
  }

  /** `target_role.eq.all` or `target_role.eq.<audience>`. */
  predicate Visible(role: Option<Role>, n: Notification) {
    n.targetRole == "all" || n.targetRole == Audience(role)
  }

  function VisibleTo(role: Option<Role>): Notification -> bool {
    (n: Notification) => Visible(role, n)
  }

  /** A notification as returned: its read status for the caller and the embedded read list. */
  datatype NotificationView = NotificationView(notification: Notification, isRead: bool, readAt: Option<Time>, receipts: seq<Time>)

  /** `reads.find(r => r.notification_id === id)`: the first receipt for that notification. */
  function FindRead(receipts: seq<NotificationRead>, id: Id): (r: Option<NotificationRead>)
    ensures r.Some? ==> r.value in receipts && r.value.notificationId == id
    ensures r.None? <==> forall k :: 0 <= k < |receipts| ==> receipts[k].notificationId != id
    ensures r.Some? ==> exists k :: 0 <= k < |receipts| && receipts[k] == r.value
                                    && forall j :: 0 <= j < k ==> receipts[j].notificationId != id
  {
    if receipts == [] then None
    else if receipts[0].notificationId == id then Some(receipts[0])
    else FindRead(receipts[1..], id)
  }

  /** The spread of one notification with `is_read`, `read_at` and `notification_reads`. */
  function View(n: Notification, receipts: seq<NotificationRead>): (v: NotificationView)
    ensures v.notification == n
    ensures v.isRead <==> exists k :: 0 <= k < |receipts| && receipts[k].notificationId == n.id
    ensures v.isRead ==>
      exists k :: && 0 <= k < |receipts| && receipts[k].notificationId == n.id
                  && (forall j :: 0 <= j < k ==> receipts[j].notificationId != n.id)
                  && v.readAt == Some(receipts[k].readAt) && v.receipts == [receipts[k].readAt]
    ensures !v.isRead ==> v.readAt.None? && v.receipts == []
  {
    var read := FindRead(receipts, n.id);
    NotificationView(n, read.Some?, if read.Some? then Some(read.value.readAt) else None,
      if read.Some? then [read.value.readAt] else [])
  }

  /** The `.map` over the fetched notifications. */
  function Merge(ns: seq<Notification>, receipts: seq<NotificationRead>): (vs: seq<NotificationView>)
    ensures |vs| == |ns|
  {
    seq(|ns|, i requires 0 <= i < |ns| => View(ns[i], receipts))
  }

  /** The caller's receipts among the fetched notifications: the second query. */
  function UserReads(receipts: seq<NotificationRead>, caller: UserId, ns: seq<Notification>): seq<NotificationRead> {
    Filter(receipts, (r: NotificationRead) => r.userId == caller && exists n :: n in ns && n.id == r.notificationId)
  }

  /** The feed handler over the `profiles`, `notifications` and `notification_reads` tables. */
  function Get(profiles: seq<Profile>, notifications: seq<Notification>, receipts: seq<NotificationRead>, caller: Option<UserId>)
    : (r: Result<seq<NotificationView>>)
    ensures r.Fail? <==> caller.None?
    ensures r.Fail? ==> r.error == Unauthorized
  {
    if caller.None? then Fail(Unauthorized)
    else
      var ns := SortDesc(Filter(notifications, VisibleTo(RoleOf(profiles, caller.value))), CreatedKey);
      Ok(Merge(ns, UserReads(receipts, caller.value, ns)))
  }

  /**
   * The feed holds exactly the notifications addressed to "all" or to the
   * caller's role, newest first, each as often as stored, with nothing dropped
   * or added by the merge.
   */
  lemma {:induction false} GetFeed(profiles: seq<Profile>, notifications: seq<Notification>, receipts: seq<NotificationRead>, caller: UserId)
    ensures var vs := Get(profiles, notifications, receipts, Some(caller)).value;
      var ns := seq(|vs|, i requires 0 <= i < |vs| => vs[i].notification);
      var role := RoleOf(profiles, caller);
      && SortedDesc(ns, CreatedKey)
      && (forall n :: n in ns <==> n in notifications && (n.targetRole == "all" || n.targetRole == Audience(role)))
      && multiset(ns) == multiset(Filter(notifications, VisibleTo(role)))
  {
    var role := RoleOf(profiles, caller);
    var sorted := SortDesc(Filter(notifications, VisibleTo(role)), CreatedKey);
    var vs := Get(profiles, notifications, receipts, Some(caller)).value;
    var ns := seq(|vs|, i requires 0 <= i < |vs| => vs[i].notification);
    assert ns == sorted;
    SortFilterMembers(notifications, VisibleTo(role), CreatedKey);
  }

  /** Receipt `k` is the caller's first receipt for notification `id`, in table order. */
  predicate FirstCallerRead(receipts: seq<NotificationRead>, caller: UserId, id: Id, k: int) {
    && 0 <= k < |receipts|
    && receipts[k].userId == caller && receipts[k].notificationId == id
    && forall j :: 0 <= j < k ==> !(receipts[j].userId == caller && receipts[j].notificationId == id)
  }

  /** Reference search: the caller's first receipt for notification `id`, in table order. */
  function FirstOfCaller(receipts: seq<NotificationRead>, caller: UserId, id: Id): (r: Option<NotificationRead>)
    ensures r.Some? ==> exists k :: FirstCallerRead(receipts, caller, id, k) && receipts[k] == r.value
    ensures r.None? ==> forall k :: 0 <= k < |receipts| ==> !(receipts[k].userId == caller && receipts[k].notificationId == id)
  {
    if receipts == [] then None
    else if receipts[0].userId == caller && receipts[0].notificationId == id then
      assert FirstCallerRead(receipts, caller, id, 0);
      Some(receipts[0])
    else
      var r := FirstOfCaller(receipts[1..], caller, id);
      assert forall k :: 0 < k < |receipts| ==> receipts[k] == receipts[1..][k - 1];
      assert r.Some? ==> exists k :: FirstCallerRead(receipts[1..], caller, id, k) && receipts[1..][k] == r.value;
      assert forall k :: FirstCallerRead(receipts[1..], caller, id, k) ==> FirstCallerRead(receipts, caller, id, k + 1);
      r
  }

  /**
   * Searching a selection that keeps, among the receipts for `id`, exactly the
   * caller's finds the caller's first receipt for `id`.
   */
  lemma {:induction false} FindReadFiltered(receipts: seq<NotificationRead>, p: NotificationRead -> bool, caller: UserId, id: Id)
    requires forall x: NotificationRead :: x.notificationId == id ==> (p(x) <==> x.userId == caller)
    ensures FindRead(Filter(receipts, p), id) == FirstOfCaller(receipts, caller, id)
    decreases |receipts|
  {
    if receipts != [] {
      var x, rest := receipts[0], Filter(receipts[1..], p);
      FindReadFiltered(receipts[1..], p, caller, id);
      if p(x) {
        assert Filter(receipts, p) == [x] + rest;
        assert ([x] + rest)[1..] == rest;
      } else {
        assert Filter(receipts, p) == rest;
      }
    }
  }

  /**
   * Restricting the receipts to the caller and the fetched notifications does not
   * change which receipt `find` returns: it is the caller's first receipt for
   * that notification.
   */
  lemma {:induction false} FindReadOfCaller(receipts: seq<NotificationRead>, caller: UserId, ns: seq<Notification>, n: Notification)
    requires n in ns
    ensures var r := FindRead(UserReads(receipts, caller, ns), n.id);
      && (r.Some? <==> exists k :: 0 <= k < |receipts| && receipts[k].userId == caller && receipts[k].notificationId == n.id)
      && (r.Some? ==> exists k :: FirstCallerRead(receipts, caller, n.id, k) && receipts[k] == r.value)
      && r == FirstOfCaller(receipts, caller, n.id)
  {
    var p := (r: NotificationRead) => r.userId == caller && exists m :: m in ns && m.id == r.notificationId;
    forall x: NotificationRead | x.notificationId == n.id
      ensures p(x) <==> x.userId == caller
    {
      assert n in ns && n.id == x.notificationId;
    }
    FindReadFiltered(receipts, p, caller, n.id);
  }

  /**
   * A notification shows as read exactly when the caller has a receipt for it;
   * `read_at` is that receipt's time and the embedded list holds just it.
   */
  lemma {:induction false} ReadStatusMatchesReceipts(profiles: seq<Profile>, notifications: seq<Notification>, receipts: seq<NotificationRead>, caller: UserId, i: nat)
    requires i < |Get(profiles, notifications, receipts, Some(caller)).value|
    ensures var v := Get(profiles, notifications, receipts, Some(caller)).value[i];
      && (v.isRead <==> exists k :: 0 <= k < |receipts| && receipts[k].userId == caller && receipts[k].notificationId == v.notification.id)
      && (v.isRead ==> exists k :: FirstCallerRead(receipts, caller, v.notification.id, k)
                                   && v.readAt == Some(receipts[k].readAt) && v.receipts == [receipts[k].readAt])
      && (!v.isRead ==> v.readAt.None? && v.receipts == [])
  {
    var ns := SortDesc(Filter(notifications, VisibleTo(RoleOf(profiles, caller))), CreatedKey);
    assert ns[i] in ns;
    FindReadOfCaller(receipts, caller, ns, ns[i]);
  }

  /** The body of a new notification; an absent field is None. */
  datatype NotificationInput = NotificationInput(title: string, message: string, priority: Option<string>, targetRole: Option<string>)

  /** `value || fallback`: an absent or empty string falls back. */
  function OrDefault(v: Option<string>, fallback: string): (s: string)
    ensures v.Some? && v.value != "" ==> s == v.value
    ensures v.None? || v.value == "" ==> s == fallback
  {
    if v.Some? && v.value != "" then v.value else fallback
  }

  function NewNotification(id: Id, caller: UserId, e: NotificationInput, now: Time): (n: Notification)
    ensures n.id == id && n.title == e.title && n.message == e.message
    ensures n.createdBy == caller && n.createdAt == now
    ensures n.priority != "" && n.targetRole != ""
    ensures e.priority.Some? && e.priority.value != "" ==> n.priority == e.priority.value
    ensures e.priority.None? || e.priority.value == "" ==> n.priority == "normal"
    ensures e.targetRole.Some? && e.targetRole.value != "" ==> n.targetRole == e.targetRole.value
    ensures e.targetRole.None? || e.targetRole.value == "" ==> n.targetRole == "all"
  {
    Notification(id, e.title, e.message, OrDefault(e.priority, "normal"), OrDefault(e.targetRole, "all"), caller, now)
  }

  /** `new_values` of the audit row: the fields as submitted, before defaulting. */
  function NotificationSnapshot(e: NotificationInput): (m: Snapshot)
    ensures m.Keys == {"title", "message"} + (if e.priority.Some? then {"priority"} else {})
                      + (if e.targetRole.Some? then {"target_role"} else {})
    ensures m["title"] == Str(e.title) && m["message"] == Str(e.message)
    ensures e.priority.Some? ==> m["priority"] == Str(e.priority.value)
    ensures e.targetRole.Some? ==> m["target_role"] == Str(e.targetRole.value)
  {
    var m := map["title" := Str(e.title), "message" := Str(e.message)];
    var m := PutOpt(m, "priority", if e.priority.Some? then Some(Str(e.priority.value)) else None);
    PutOpt(m, "target_role", if e.targetRole.Some? then Some(Str(e.targetRole.value)) else None)
  }

  /** The audit row of a new notification: its id and the fields as submitted. */
  function NotificationAudit(caller: UserId, n: Notification, e: NotificationInput): (l: AuditEntry)
    ensures l.userId == caller && l.action == "create_notification" && l.entityType == "notification"
    ensures l.entityId == Some(n.id) && l.oldValues.None? && l.newValues == Some(NotificationSnapshot(e))
  {
    AuditEntry(caller, "create_notification", "notification", Some(n.id), None, Some(NotificationSnapshot(e)))
  }

  /** The creation handler: admins only. `now` is the database's `created_at` default. */
  method Post(db: Db, caller: Option<UserId>, e: NotificationInput, now: Time) returns (res: Result<Notification>)
    requires db.Valid()
    modifies db`notifications, db`auditLogs, db`nextId
    ensures db.Valid()
    ensures caller.None? ==> res == Fail(Unauthorized)
    ensures caller.Some? && !IsAdmin(RoleOf(db.profiles, caller.value)) ==> res == Fail(Forbidden)
    ensures res.Ok? <==> caller.Some? && IsAdmin(RoleOf(db.profiles, caller.value))
    ensures res.Fail? ==> unchanged(db)
    ensures res.Ok? ==>
      && res.value == NewNotification(old(db.nextId), caller.value, e, now)
      && db.notifications == old(db.notifications) + [res.value]
      && db.auditLogs == old(db.auditLogs) + [NotificationAudit(caller.value, res.value, e)]
  {
    if caller.None? {
      return Fail(Unauthorized);
    }
    if !IsAdmin(RoleOf(db.profiles, caller.value)) {
      return Fail(Forbidden);
    }
    var id := db.NewId();
    var n := NewNotification(id, caller.value, e, now);
    db.notifications := db.notifications + [n];
    db.auditLogs := db.auditLogs + [NotificationAudit(caller.value, n, e)];
    res := Ok(n);
  }

  /**
   * A notification created without a (non-empty) target goes to everybody, with
   * normal priority; one targeted at employees does not reach admins.
   */
  lemma DefaultsReachEveryone(id: Id, caller: UserId, e: NotificationInput, now: Time, role: Option<Role>)
    ensures var n := NewNotification(id, caller, e, now);
      && (e.targetRole.None? || e.targetRole == Some("") ==> Visible(role, n))
      && (e.priority.None? || e.priority == Some("") ==> n.priority == "normal")
      && (e.targetRole == Some("employee") ==> (Visible(role, n) <==> !IsAdmin(role)))
      && (e.targetRole == Some("admin") ==> (Visible(role, n) <==> IsAdmin(role)))
  {
  }

  /** After creation, the new notification is in the feed of every caller it is visible to. */
  lemma {:induction false} NewNotificationInFeed(profiles: seq<Profile>, notifications: seq<Notification>, receipts: seq<NotificationRead>, caller: UserId, n: Notification)
    requires Visible(RoleOf(profiles, caller), n)
    ensures exists i :: 0 <= i < |Get(profiles, notifications + [n], receipts, Some(caller)).value|
                        && Get(profiles, notifications + [n], receipts, Some(caller)).value[i].notification == n
  {
    GetFeed(profiles, notifications + [n], receipts, caller);
    var vs := Get(profiles, notifications + [n], receipts, Some(caller)).value;
    var ns := seq(|vs|, i requires 0 <= i < |vs| => vs[i].notification);
    assert n in ns;
    var i :| 0 <= i < |ns| && ns[i] == n;
    assert vs[i].notification == n;
  }
}
