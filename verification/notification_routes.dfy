/** The notification endpoints of the backend: list, mark read, delete. The
    handlers that take an id have no error handling: when the id names no
    row, the store's error escapes the handler and, under Express 4, no
    reply is sent. They
    also do not check that the notification belongs to the caller. */
module NotificationRoutes {

  import opened Common
  import opened Store
  import Listing

  /** What the client gets back. */
  datatype Reply = Sent(status: int) | NoReply

  function NotificationStamp(n: Notification): int
  {
    n.createdAt
  }

  /** The ids of `user`'s notifications. */
  function OwnedBy(ns: map<Id, Notification>, user: Id): set<Id>
  {
    set n | n in ns && ns[n].userId == user
  }

  /** `GET /`: the caller's notifications, newest first, with their count. */
  method List(db: Db, caller: Option<User>) returns (reply: Reply, count: nat, list: seq<Id>)
    ensures caller.None? ==> reply == Sent(401) && list == []
    ensures caller.Some? ==> reply == Sent(200) && Listing.Lists(db.notifications, NotificationStamp, OwnedBy(db.notifications, caller.value.id), list)
    ensures count == |list|
  {
    if caller.None? {
      return Sent(401), 0, [];
    }
    list := Listing.ListNewestFirst(db.notifications, NotificationStamp, OwnedBy(db.notifications, caller.value.id));
    return Sent(200), |list|, list;
  }

  /** `PATCH /:id/read`: marks that one notification read, whoever owns it. */
  method MarkRead(db: Db, id: Id) returns (reply: Reply)
    modifies db`notifications
    ensures id !in old(db.notifications) ==> reply == NoReply && db.notifications == old(db.notifications)
    ensures id in old(db.notifications) ==>
      reply == Sent(200) && db.notifications == old(db.notifications)[id := old(db.notifications)[id].(isRead := true)]
  {
    if id !in db.notifications {
      return NoReply;
    }
    db.notifications := db.notifications[id := db.notifications[id].(isRead := true)];
    reply := Sent(200);
  }

  /** `updateMany({ where: { userId }, data: { isRead: true } })`. */
  function MarkAllReadFor(ns: map<Id, Notification>, user: Id): map<Id, Notification>
  {
    map n | n in ns :: if ns[n].userId == user then ns[n].(isRead := true) else ns[n]
  }

  /** Marking all read reads every notification of the user, touches no
      other user's, keeps the rows otherwise as they were, and doing it twice
      is doing it once. */
  lemma MarkAllReadEffect(ns: map<Id, Notification>, user: Id)
    ensures MarkAllReadFor(ns, user).Keys == ns.Keys
    ensures forall n :: n in ns && ns[n].userId == user ==> MarkAllReadFor(ns, user)[n] == ns[n].(isRead := true)
    ensures forall n :: n in ns && ns[n].userId != user ==> MarkAllReadFor(ns, user)[n] == ns[n]
    ensures MarkAllReadFor(MarkAllReadFor(ns, user), user) == MarkAllReadFor(ns, user)
  {
  }

  /** `PATCH /mark-all-read`. */
  method MarkAllRead(db: Db, caller: Option<User>) returns (reply: Reply)
    modifies db`notifications
    ensures caller.None? ==> reply == Sent(401) && db.notifications == old(db.notifications)
    ensures caller.Some? ==> reply == Sent(200) && db.notifications == MarkAllReadFor(old(db.notifications), caller.value.id)
  {
    if caller.None? {
      return Sent(401);
    }
    db.notifications := MarkAllReadFor(db.notifications, caller.value.id);
    reply := Sent(200);
  }

  /** `DELETE /:id`: deletes that one notification, whoever owns it. */
  method Delete(db: Db, id: Id) returns (reply: Reply)
    modifies db`notifications
    ensures id !in old(db.notifications) ==> reply == NoReply && db.notifications == old(db.notifications)
    ensures id in old(db.notifications) ==> reply == Sent(200) && db.notifications == old(db.notifications) - {id}
  {
    if id !in db.notifications {
      return NoReply;
    }
    db.notifications := db.notifications - {id};
    reply := Sent(200);
  }

  /** `deleteMany({ where: { userId } })`. */
  function ClearFor(ns: map<Id, Notification>, user: Id): map<Id, Notification>
  {
    map n | n in ns && ns[n].userId != user :: ns[n]
  }

  /** Clearing removes all and only the user's notifications. */
  lemma ClearForEffect(ns: map<Id, Notification>, user: Id)
    ensures OwnedBy(ClearFor(ns, user), user) == {}
    ensures forall n :: n in ns && ns[n].userId != user ==> n in ClearFor(ns, user) && ClearFor(ns, user)[n] == ns[n]
    ensures ClearFor(ns, user).Keys == ns.Keys - OwnedBy(ns, user)
  {
  }

  /** `DELETE /clear/all`. */
  method ClearAll(db: Db, caller: Option<User>) returns (reply: Reply)
    modifies db`notifications
    ensures caller.None? ==> reply == Sent(401) && db.notifications == old(db.notifications)
    ensures caller.Some? ==> reply == Sent(200) && db.notifications == ClearFor(old(db.notifications), caller.value.id)
  {
    if caller.None? {
      return Sent(401);
    }
    db.notifications := ClearFor(db.notifications, caller.value.id);
    reply := Sent(200);
  }
}
