/** In-app notifications (backend/src/feature/notifications/notifications.service.ts):
    creation for one user or for every super administrator, per-user listings
    newest first, the unread count, and the read-state updates. */
module Notifications {
  import opened Common
  import opened Entities
  import opened Ordering
  import opened Store

  const SuperAdminRoleName := "SUPER_ADMIN"

  function NotificationMissing(id: Id): string {
    "Notification avec l'ID " + NatToString(id) + " non trouvée"
  }

  function CreatedAt(n: Notification): int { n.createdAt }

  /** The keys of a user's unread notifications. */
  function UnreadKeys(m: map<Id, Notification>, userId: Id): set<Id> {
    set k | k in m && m[k].userId == userId && !m[k].isRead
  }

  // -----------------------------------------------------------------------
  // create (lines 10-25)
  // -----------------------------------------------------------------------

  /** The recipient's columns an insert returns with the row
      (`include: { user: { select: ... } }`). */
  datatype UserSummary = UserSummary(id: Id, username: string, email: string,
                                     firstName: Option<string>, lastName: Option<string>)

  function SummaryOf(u: User): UserSummary {
    UserSummary(u.id, u.username, u.email, u.firstName, u.lastName)
  }

  /** A notification as an insert returns it: the row and its recipient. */
  datatype NotificationWithUser = NotificationWithUser(notification: Notification, user: UserSummary)

  /** The row is new and unread; an unknown recipient violates the foreign key. */
  method Create(db: Db, userId: Id, kind: string, title: string, message: string, now: int)
    returns (r: Result<NotificationWithUser>)
    requires db.Valid()
    modifies db`notifications, db`nextId
    ensures db.Valid()
    ensures userId !in db.users ==> r == Err(DatabaseError(ForeignKeyViolation))
    ensures r.Err? ==> db.notifications == old(db.notifications)
    ensures r.Ok? ==>
      && var n := r.value.notification;
      && n.id !in old(db.notifications)
      && n == Notification(n.id, userId, kind, title, message, false, now)
      && db.notifications == old(db.notifications)[n.id := n]
    ensures r.Ok? ==> userId in db.users && r.value.user == SummaryOf(db.users[userId]) && r.value.user.id == userId
    ensures userId in db.users ==> r.Ok?
  {
    if userId !in db.users {
      return Err(DatabaseError(ForeignKeyViolation));
    }
    var n := Insert(db, userId, kind, title, message, now);
    r := Ok(NotificationWithUser(n, SummaryOf(db.users[userId])));
  }

  /** The insertion itself, under a fresh identifier. */
  method Insert(db: Db, userId: Id, kind: string, title: string, message: string, now: int)
    returns (n: Notification)
    requires db.Valid() && userId in db.users
    modifies db`notifications, db`nextId
    ensures db.Valid()
    ensures n == Notification(old(db.nextId), userId, kind, title, message, false, now)
    ensures n.id !in old(db.notifications) && db.nextId == old(db.nextId) + 1
    ensures db.notifications == old(db.notifications)[n.id := n]
  {
    var id := db.FreshId();
    n := Notification(id, userId, kind, title, message, false, now);
    AddNotificationValid(db.notifications, db.apiKeys, db.users, db.nextId, n);
    db.notifications := db.notifications[id := n];
  }

  // -----------------------------------------------------------------------
  // createForSuperAdmins (lines 27-67)
  // -----------------------------------------------------------------------

  /** The ids below `bound` of users whose role is SUPER_ADMIN, in increasing
      order (`user.findMany({ where: { role: { name: 'SUPER_ADMIN' } } })`). */
  function SuperAdminIds(users: map<Id, User>, roles: map<Id, Role>, bound: nat): (r: seq<Id>)
    requires forall k :: k in users ==> users[k].roleId in roles
    ensures forall i, j :: 0 <= i < j < |r| ==> r[i] < r[j]
    ensures forall i :: 0 <= i < |r| ==> r[i] < bound
    ensures forall k :: k in r <==> k < bound && k in users && roles[users[k].roleId].name == SuperAdminRoleName
    decreases bound
  {
    if bound == 0 then []
    else
      var b := bound - 1;
      SuperAdminIds(users, roles, b)
        + (if b in users && roles[users[b].roleId].name == SuperAdminRoleName then [b] else [])
  }

  /** The notifications the fan-out creates: one per listed recipient, under
      consecutive fresh identifiers from `start`. */
  function Batch(start: nat, recipients: seq<Id>, kind: string, title: string, message: string, now: int)
    : (r: seq<Notification>)
    ensures |r| == |recipients|
    ensures forall j :: 0 <= j < |r| ==> r[j] == Notification(start + j, recipients[j], kind, title, message, false, now)
  {
    seq(|recipients|, j requires 0 <= j < |recipients| =>
      Notification(start + j, recipients[j], kind, title, message, false, now))
  }

  /** The batch for one more recipient is the batch so far and one more row. */
  lemma BatchStep(start: nat, recipients: seq<Id>, i: nat, kind: string, title: string, message: string, now: int)
    requires i < |recipients|
    ensures Batch(start, recipients[..i + 1], kind, title, message, now)
         == Batch(start, recipients[..i], kind, title, message, now)
            + [Notification(start + i, recipients[i], kind, title, message, false, now)]
  {
    assert recipients[..i + 1] == recipients[..i] + [recipients[i]];
  }

  /** The table after inserting `ns` one after the other. */
  function Extended(m: map<Id, Notification>, ns: seq<Notification>): map<Id, Notification>
    decreases |ns|
  {
    if ns == [] then m else Extended(m, ns[..|ns| - 1])[ns[|ns| - 1].id := ns[|ns| - 1]]
  }

  lemma ExtendedStep(m: map<Id, Notification>, ns: seq<Notification>, n: Notification)
    ensures Extended(m, ns + [n]) == Extended(m, ns)[n.id := n]
  {
    assert (ns + [n])[..|ns|] == ns;
  }

  /** Inserting rows under fresh, distinct keys keeps every old row and adds
      exactly the new ones. */
  lemma {:induction false} ExtendedContents(m: map<Id, Notification>, ns: seq<Notification>)
    requires forall j :: 0 <= j < |ns| ==> ns[j].id !in m
    requires forall i, j :: 0 <= i < j < |ns| ==> ns[i].id != ns[j].id
    ensures forall k :: k in m ==> k in Extended(m, ns) && Extended(m, ns)[k] == m[k]
    ensures forall j :: 0 <= j < |ns| ==> ns[j].id in Extended(m, ns) && Extended(m, ns)[ns[j].id] == ns[j]
    ensures forall k :: k in Extended(m, ns) ==> k in m || exists j :: 0 <= j < |ns| && ns[j].id == k
    decreases |ns|
  {
    if ns != [] {
      var init := ns[..|ns| - 1];
      ExtendedContents(m, init);
      forall k | k in Extended(m, ns) ensures k in m || exists j :: 0 <= j < |ns| && ns[j].id == k {
        if k != ns[|ns| - 1].id && k !in m {
          var j :| 0 <= j < |init| && init[j].id == k;
          assert ns[j].id == k;
        }
      }
    }
  }

  /** One new unread notification per super administrator, in id order, and
      nothing else written. */
  method CreateForSuperAdmins(db: Db, kind: string, title: string, message: string, now: int)
    returns (created: seq<NotificationWithUser>)
    requires db.Valid()
    modifies db`notifications, db`nextId
    ensures db.Valid()
    ensures var batch := Batch(old(db.nextId), SuperAdminIds(db.users, db.roles, old(db.nextId)), kind, title, message, now);
      && db.notifications == Extended(old(db.notifications), batch)
      && |created| == |batch|
      && forall i :: 0 <= i < |created| ==>
           && created[i].notification == batch[i]
           && batch[i].userId in db.users && created[i].user == SummaryOf(db.users[batch[i].userId])
  {
    var admins := SuperAdminIds(db.users, db.roles, db.nextId);
    var batch := NotifyAll(db, admins, kind, title, message, now);
    created := WithUsers(batch, db.users);
  }

  /** Each notification of `ns` with its recipient's summary. */
  function WithUsers(ns: seq<Notification>, users: map<Id, User>): (r: seq<NotificationWithUser>)
    requires forall i :: 0 <= i < |ns| ==> ns[i].userId in users
    ensures |r| == |ns|
    ensures forall i :: 0 <= i < |r| ==> r[i] == NotificationWithUser(ns[i], SummaryOf(users[ns[i].userId]))
  {
    seq(|ns|, i requires 0 <= i < |ns| => NotificationWithUser(ns[i], SummaryOf(users[ns[i].userId])))
  }

  /** The loop of `Promise.all(superAdmins.map(...))`, run one insert after
      the other. */
  method NotifyAll(db: Db, recipients: seq<Id>, kind: string, title: string, message: string, now: int)
    returns (created: seq<Notification>)
    requires db.Valid()
    requires forall i :: 0 <= i < |recipients| ==> recipients[i] in db.users
    modifies db`notifications, db`nextId
    ensures db.Valid()
    ensures created == Batch(old(db.nextId), recipients, kind, title, message, now)
    ensures db.notifications == Extended(old(db.notifications), created)
  {
    ghost var start, base := db.nextId, db.notifications;
    created := [];
    for i := 0 to |recipients|
      invariant db.Valid()
      invariant forall j :: 0 <= j < |recipients| ==> recipients[j] in db.users
      invariant db.nextId == start + i
      invariant created == Batch(start, recipients[..i], kind, title, message, now)
      invariant db.notifications == Extended(base, created)
    {
      created := NotifyNext(db, base, start, recipients, i, created, kind, title, message, now);
    }
    assert recipients[..|recipients|] == recipients;
  }

  /** One turn of the fan-out loop: the next recipient's notification. */
  method NotifyNext(db: Db, ghost base: map<Id, Notification>, ghost start: nat, recipients: seq<Id>, i: nat,
                    created: seq<Notification>, kind: string, title: string, message: string, now: int)
    returns (extended: seq<Notification>)
    requires db.Valid() && i < |recipients| && recipients[i] in db.users && db.nextId == start + i
    requires created == Batch(start, recipients[..i], kind, title, message, now)
    requires db.notifications == Extended(base, created)
    modifies db`notifications, db`nextId
    ensures db.Valid() && db.nextId == start + i + 1
    ensures extended == Batch(start, recipients[..i + 1], kind, title, message, now)
    ensures db.notifications == Extended(base, extended)
  {
    var n := Insert(db, recipients[i], kind, title, message, now);
    assert n == Notification(start + i, recipients[i], kind, title, message, false, now);
    BatchStep(start, recipients, i, kind, title, message, now);
    ExtendedStep(base, created, n);
    extended := created + [n];
  }

  /** What the fan-out leaves in the table: the old rows, and one new unread
      row per super administrator at call time, each with the given type,
      title and message. */
  lemma FanOutContents(m: map<Id, Notification>, start: nat, users: map<Id, User>, roles: map<Id, Role>,
                       kind: string, title: string, message: string, now: int)
    requires NotificationsValid(m, start)
    requires forall k :: k in users ==> users[k].roleId in roles
    ensures var created := Batch(start, SuperAdminIds(users, roles, start), kind, title, message, now);
      var after := Extended(m, created);
      && (forall k :: k in m ==> k in after && after[k] == m[k])
      && (forall j :: 0 <= j < |created| ==>
            created[j].id !in m && created[j].id in after && after[created[j].id] == created[j])
      && (forall k :: k in after ==> k in m || exists j :: 0 <= j < |created| && created[j].id == k)
      && (forall k :: k in after && k !in m ==>
            && after[k].userId in users && roles[users[after[k].userId].roleId].name == SuperAdminRoleName
            && !after[k].isRead && after[k].kind == kind && after[k].title == title && after[k].message == message)
  {
    var created := Batch(start, SuperAdminIds(users, roles, start), kind, title, message, now);
    ExtendedContents(m, created);
    var after := Extended(m, created);
    forall k | k in after && k !in m
      ensures && after[k].userId in users && roles[users[after[k].userId].roleId].name == SuperAdminRoleName
              && !after[k].isRead && after[k].kind == kind && after[k].title == title && after[k].message == message
    {
      var j :| 0 <= j < |created| && created[j].id == k;
    }
  }

  /** Every super administrator gets exactly one of the new notifications. */
  lemma {:induction false} OnePerSuperAdmin(admins: seq<Id>, created: seq<Notification>, k: Id)
    requires forall i, j :: 0 <= i < j < |admins| ==> admins[i] < admins[j]
    requires |created| == |admins| && forall j :: 0 <= j < |created| ==> created[j].userId == admins[j]
    ensures k in admins ==> |set j | 0 <= j < |created| && created[j].userId == k| == 1
    ensures k !in admins ==> |set j | 0 <= j < |created| && created[j].userId == k| == 0
  {
    var js := set j | 0 <= j < |created| && created[j].userId == k;
    if k in admins {
      var i :| 0 <= i < |admins| && admins[i] == k;
      assert js == {i};
    } else {
      assert js == {};
    }
  }

  // -----------------------------------------------------------------------
  // findAllByUser, findUnreadByUser, countUnreadByUser (lines 69-93)
  // -----------------------------------------------------------------------

  function OfUser(userId: Id): (p: Notification -> bool)
    ensures forall n :: p(n) <==> n.userId == userId
  {
    (n: Notification) => n.userId == userId
  }

  function UnreadOf(userId: Id): (p: Notification -> bool)
    ensures forall n :: p(n) <==> n.userId == userId && !n.isRead
  {
    (n: Notification) => n.userId == userId && !n.isRead
  }

  lemma CountOfUser(m: map<Id, Notification>, bound: nat, userId: Id)
    requires NotificationsValid(m, bound)
    ensures |set k | k in m && m[k].userId == userId| == |Where(m, bound, OfUser(userId))|
  {
    var p := OfUser(userId);
    assert (set k | k in m && m[k].userId == userId) == MatchingKeys(m, bound, p);
  }

  lemma CountUnread(m: map<Id, Notification>, bound: nat, userId: Id)
    requires NotificationsValid(m, bound)
    ensures |UnreadKeys(m, userId)| == |Where(m, bound, UnreadOf(userId))|
  {
    var p := UnreadOf(userId);
    assert UnreadKeys(m, userId) == MatchingKeys(m, bound, p);
  }

  /** `findMany({ where: { userId }, orderBy: { createdAt: 'desc' } })`. */
  function FindAllByUser(db: Db, userId: Id): (r: seq<Notification>)
    reads db
    requires NotificationsValid(db.notifications, db.nextId)
    ensures Descending(r, CreatedAt)
    ensures forall i :: 0 <= i < |r| ==> r[i].userId == userId && r[i] in db.notifications.Values
    ensures forall k :: k in db.notifications && db.notifications[k].userId == userId ==> db.notifications[k] in r
    ensures |r| == |set k | k in db.notifications && db.notifications[k].userId == userId|
  {
    var p := OfUser(userId);
    var mine := Where(db.notifications, db.nextId, p);
    var r := SortDescending(mine, CreatedAt);
    forall i | 0 <= i < |r| ensures r[i].userId == userId && r[i] in db.notifications.Values {
      assert r[i] in mine;
      var j :| 0 <= j < |mine| && mine[j] == r[i];
      assert p(mine[j]);
    }
    forall k | k in db.notifications && db.notifications[k].userId == userId
      ensures db.notifications[k] in r
    {
      assert p(db.notifications[k]);
      assert db.notifications[k] in mine;
    }
    CountOfUser(db.notifications, db.nextId, userId);
    r
  }

  /** `findMany({ where: { userId, isRead: false }, orderBy: { createdAt: 'desc' } })`. */
  function FindUnreadByUser(db: Db, userId: Id): (r: seq<Notification>)
    reads db
    requires NotificationsValid(db.notifications, db.nextId)
    ensures Descending(r, CreatedAt)
    ensures forall i :: 0 <= i < |r| ==> r[i].userId == userId && !r[i].isRead && r[i] in db.notifications.Values
    ensures forall k :: k in UnreadKeys(db.notifications, userId) ==> db.notifications[k] in r
    ensures |r| == |UnreadKeys(db.notifications, userId)|
  {
    var p := UnreadOf(userId);
    var unread := Where(db.notifications, db.nextId, p);
    var r := SortDescending(unread, CreatedAt);
    forall i | 0 <= i < |r| ensures r[i].userId == userId && !r[i].isRead && r[i] in db.notifications.Values {
      assert r[i] in unread;
      var j :| 0 <= j < |unread| && unread[j] == r[i];
      assert p(unread[j]);
    }
    forall k | k in UnreadKeys(db.notifications, userId) ensures db.notifications[k] in r {
      assert p(db.notifications[k]);
      assert db.notifications[k] in unread;
    }
    CountUnread(db.notifications, db.nextId, userId);
    r
  }

  /** `count({ where: { userId, isRead: false } })`: as many as findUnreadByUser
      lists, and 0 exactly when the user has read everything. */
  function CountUnreadByUser(db: Db, userId: Id): (n: nat)
    reads db
    requires NotificationsValid(db.notifications, db.nextId)
    ensures n == |FindUnreadByUser(db, userId)|
    ensures n == 0 <==> forall k :: k in db.notifications && db.notifications[k].userId == userId ==> db.notifications[k].isRead
  {
    CountUnread(db.notifications, db.nextId, userId);
    |UnreadKeys(db.notifications, userId)|
  }

  // -----------------------------------------------------------------------
  // markAsRead (lines 95-108), markAllAsReadByUser (lines 110-120),
  // remove (lines 122-134)
  // -----------------------------------------------------------------------

  /** The table after `update({ where: { id }, data: { isRead: true } })`. */
  function MarkedRead(m: map<Id, Notification>, id: Id): (r: map<Id, Notification>)
    requires id in m
    ensures r.Keys == m.Keys && r[id].isRead
    ensures forall k :: k in m && k != id ==> r[k] == m[k]
  {
    m[id := m[id].(isRead := true)]
  }

  /** Marking a notification read twice is the same as once. */
  lemma MarkedReadIdempotent(m: map<Id, Notification>, id: Id)
    requires id in m
    ensures MarkedRead(MarkedRead(m, id), id) == MarkedRead(m, id)
  {
  }

  method MarkAsRead(db: Db, id: Id) returns (r: Result<Notification>)
    requires db.Valid()
    modifies db`notifications
    ensures db.Valid()
    ensures r.Ok? <==> id in old(db.notifications)
    ensures r.Err? ==> r.error == NotFound(NotificationMissing(id)) && db.notifications == old(db.notifications)
    ensures r.Ok? ==> db.notifications == MarkedRead(old(db.notifications), id) && r.value == db.notifications[id]
  {
    if id !in db.notifications {
      return Err(NotFound(NotificationMissing(id)));
    }
    SameOwnersValid(db.notifications, MarkedRead(db.notifications, id), db.apiKeys, db.users);
    db.notifications := MarkedRead(db.notifications, id);
    r := Ok(db.notifications[id]);
  }

  /** The table after `updateMany({ where: { userId, isRead: false }, data: { isRead: true } })`. */
  function AllMarkedRead(m: map<Id, Notification>, userId: Id): (r: map<Id, Notification>)
    ensures r.Keys == m.Keys
    ensures UnreadKeys(r, userId) == {}
    ensures forall k :: k in m && m[k].userId != userId ==> r[k] == m[k]
    ensures forall k :: k in m ==> r[k] == (if k in UnreadKeys(m, userId) then m[k].(isRead := true) else m[k])
  {
    map k | k in m :: if m[k].userId == userId && !m[k].isRead then m[k].(isRead := true) else m[k]
  }

  /** Returns how many notifications were unread; afterwards the user has
      none, and other users' notifications are untouched. */
  method MarkAllAsReadByUser(db: Db, userId: Id) returns (count: nat)
    requires db.Valid()
    modifies db`notifications
    ensures db.Valid()
    ensures count == |UnreadKeys(old(db.notifications), userId)|
    ensures db.notifications == AllMarkedRead(old(db.notifications), userId)
    ensures CountUnreadByUser(db, userId) == 0
  {
    count := |UnreadKeys(db.notifications, userId)|;
    var marked := AllMarkedRead(db.notifications, userId);
    AllMarkedReadValid(db.notifications, marked, userId, db.apiKeys, db.users, db.nextId);
    db.SetNotifications(marked);
  }

  /** Marking a user's notifications read keeps the table's constraints and
      leaves that user nothing unread. */
  lemma AllMarkedReadValid(m: map<Id, Notification>, marked: map<Id, Notification>, userId: Id,
                           apiKeys: map<Id, ApiKey>, users: map<Id, User>, bound: nat)
    requires OwnersValid(m, apiKeys, users) && NotificationsValid(m, bound)
    requires marked == AllMarkedRead(m, userId)
    ensures OwnersValid(marked, apiKeys, users) && NotificationsValid(marked, bound)
    ensures |UnreadKeys(marked, userId)| == 0
  {
    SameOwnersValid(m, marked, apiKeys, users);
  }

  method Remove(db: Db, id: Id) returns (r: Result<()>)
    requires db.Valid()
    modifies db`notifications
    ensures db.Valid()
    ensures r.Ok? <==> id in old(db.notifications)
    ensures r.Err? ==> r.error == NotFound(NotificationMissing(id)) && db.notifications == old(db.notifications)
    ensures r.Ok? ==> db.notifications == old(db.notifications) - {id}
  {
    if id !in db.notifications {
      return Err(NotFound(NotificationMissing(id)));
    }
    db.notifications := db.notifications - {id};
    r := Ok(());
  }
}
