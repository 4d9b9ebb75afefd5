/** The client-side notification store: the list of notifications, newest
    first and capped at fifty, and the unread counter shown on the bell.
    Every action replaces the whole state through the store's `set`, so each
    action is a function from the old state to the new one, and the store
    object applies it. The random id and the clock reading of a new
    notification are parameters. */
module NotificationStore {

  import opened Common
  import opened Seqs

  datatype Kind = Info | Success | Warning | Error

  datatype Note = Note(id: string, kind: Kind, message: string, title: string, timestamp: string, read: bool)

  /** The number of notifications kept. */
  const Cap: nat := 50

  datatype State = State(notifications: seq<Note>, unreadCount: int)

  /** The counter is never negative and the list never exceeds the cap. */
  ghost predicate Valid(s: State)
  {
    s.unreadCount >= 0 && |s.notifications| <= Cap
  }

  /** `Math.max(0, n)`. */
  function Max0(n: int): (r: int)
    ensures r >= 0 && r >= n && (r == 0 || r == n)
  {
    if n < 0 then 0 else n
  }

  /** `s.slice(0, n)`. */
  function Take<T>(s: seq<T>, n: nat): (r: seq<T>)
    ensures |r| == if |s| <= n then |s| else n
    ensures forall i :: 0 <= i < |r| ==> r[i] == s[i]
  {
    if |s| <= n then s else s[..n]
  }

  /** `addNotification`: the new unread notification goes in front, the
      list is cut to the newest fifty, and the counter goes up by one. */
  function AddNote(s: State, n: Note): State
  {
    State(Take([n] + s.notifications, Cap), s.unreadCount + 1)
  }

  /** The list with every notification whose id is `id` marked read. */
  function MarkRead(ns: seq<Note>, id: string): (r: seq<Note>)
    ensures |r| == |ns|
    ensures forall i :: 0 <= i < |ns| ==> r[i] == if ns[i].id == id then ns[i].(read := true) else ns[i]
  {
    if ns == [] then []
    else [if ns[0].id == id then ns[0].(read := true) else ns[0]] + MarkRead(ns[1..], id)
  }

  /** `markAsRead`: the counter goes down by one, floored at zero, whether
      or not a matching unread notification exists. */
  function MarkAsRead(s: State, id: string): State
  {
    State(MarkRead(s.notifications, id), Max0(s.unreadCount - 1))
  }

  /** The list with every notification marked read. */
  function MarkAll(ns: seq<Note>): (r: seq<Note>)
    ensures |r| == |ns|
    ensures forall i :: 0 <= i < |ns| ==> r[i] == ns[i].(read := true)
  {
    if ns == [] then [] else [ns[0].(read := true)] + MarkAll(ns[1..])
  }

  /** `markAllAsRead`. */
  function MarkAllAsRead(s: State): State
  {
    State(MarkAll(s.notifications), 0)
  }

  /** `removeNotification`: every notification with the id goes; the counter
      goes down (floored at zero) only when the first of them was unread. */
  function RemoveNote(s: State, id: string): State
  {
    var found := Find((n: Note) => n.id == id, s.notifications);
    State(Filter((n: Note) => n.id != id, s.notifications),
          if found.Some? && !found.value.read then Max0(s.unreadCount - 1) else s.unreadCount)
  }

  /** `clearAll`. */
  function ClearAll(s: State): State
  {
    State([], 0)
  }

  /** Every action keeps the counter non-negative and the list within the cap. */
  lemma ActionsKeepValid(s: State, n: Note, id: string)
    requires Valid(s)
    ensures Valid(AddNote(s, n)) && Valid(MarkAsRead(s, id)) && Valid(MarkAllAsRead(s))
    ensures Valid(RemoveNote(s, id)) && Valid(ClearAll(s))
  {
  }

  /** A new notification is first, the older ones follow in their order, and
      only the oldest one is dropped when the list was full. */
  lemma AddNoteOrder(s: State, n: Note)
    ensures var r := AddNote(s, n).notifications;
      && |r| >= 1 && r[0] == n
      && |r| == (if |s.notifications| < Cap then |s.notifications| + 1 else Cap)
      && forall i :: 1 <= i < |r| ==> r[i] == s.notifications[i - 1]
    ensures AddNote(s, n).unreadCount == s.unreadCount + 1
  {
    var r := AddNote(s, n).notifications;
    assert forall i :: 1 <= i < |r| ==> r[i] == ([n] + s.notifications)[i];
  }

  /** Removing keeps the other notifications in their order and leaves none with the id. */
  lemma RemoveNoteEffect(s: State, id: string, x: Note)
    ensures x in RemoveNote(s, id).notifications <==> x in s.notifications && x.id != id
    ensures IsSubsequence(RemoveNote(s, id).notifications, s.notifications)
  {
    FilterMembers((n: Note) => n.id != id, s.notifications, x);
    FilterIsSubsequence((n: Note) => n.id != id, s.notifications);
  }

  // ------------------------------------------------ the counter and the list

  /** The number of unread notifications in a list. */
  function CountUnread(ns: seq<Note>): (k: nat)
    ensures k <= |ns|
  {
    if ns == [] then 0 else (if ns[0].read then 0 else 1) + CountUnread(ns[1..])
  }

  /** The number of unread notifications with the id `id`. */
  function CountUnreadWith(ns: seq<Note>, id: string): (k: nat)
    ensures k <= CountUnread(ns)
  {
    if ns == [] then 0 else (if !ns[0].read && ns[0].id == id then 1 else 0) + CountUnreadWith(ns[1..], id)
  }

  /** The counter agrees with the list. */
  ghost predicate Counted(s: State)
  {
    s.unreadCount == CountUnread(s.notifications)
  }

  lemma {:induction false} CountUnreadAppend(a: seq<Note>, b: seq<Note>)
    ensures CountUnread(a + b) == CountUnread(a) + CountUnread(b)
  {
    if a == [] {
      assert a + b == b;
    } else {
      assert (a + b)[0] == a[0] && (a + b)[1..] == a[1..] + b;
      CountUnreadAppend(a[1..], b);
    }
  }

  /** Marking read lowers the number of unread notifications by the number
      of unread ones with that id. */
  lemma {:induction false} CountUnreadMarkRead(ns: seq<Note>, id: string)
    ensures CountUnread(MarkRead(ns, id)) == CountUnread(ns) - CountUnreadWith(ns, id)
  {
    if ns != [] {
      CountUnreadMarkRead(ns[1..], id);
      assert MarkRead(ns, id)[1..] == MarkRead(ns[1..], id);
    }
  }

  /** Removing by id lowers the number of unread notifications by the number
      of unread ones with that id. */
  lemma {:induction false} CountUnreadRemove(ns: seq<Note>, id: string)
    ensures CountUnread(Filter((n: Note) => n.id != id, ns)) == CountUnread(ns) - CountUnreadWith(ns, id)
  {
    if ns != [] {
      CountUnreadRemove(ns[1..], id);
      var rest := Filter((n: Note) => n.id != id, ns[1..]);
      if ns[0].id != id {
        assert ([ns[0]] + rest)[1..] == rest;
      }
    }
  }

  lemma {:induction false} CountUnreadMarkAll(ns: seq<Note>)
    ensures CountUnread(MarkAll(ns)) == 0
  {
    if ns != [] {
      CountUnreadMarkAll(ns[1..]);
      assert MarkAll(ns)[1..] == MarkAll(ns[1..]);
    }
  }

  /** Marking the same notification read twice counts it twice: with two
      unread notifications, the counter falls to zero while one is still unread. */
  lemma RepeatedMarkAsReadUndercounts()
    ensures var a := Note("a", Info, "m", "t", "0", false);
      var b := Note("b", Info, "m", "t", "0", false);
      var s := State([a, b], 2);
      var s2 := MarkAsRead(MarkAsRead(s, "a"), "a");
      && Counted(s) && !Counted(s2)
      && s2.unreadCount == 0 && CountUnread(s2.notifications) == 1
  {
    var a := Note("a", Info, "m", "t", "0", false);
    var b := Note("b", Info, "m", "t", "0", false);
    var s := State([a, b], 2);
    assert [a, b][1..] == [b];
    var s2 := MarkAsRead(MarkAsRead(s, "a"), "a");
    assert s2.notifications == [a.(read := true), b];
    assert s2.notifications[1..] == [b];
  }

  /** At the cap, adding drops the oldest notification; when that one was
      unread the counter still goes up by one and overcounts. */
  lemma {:induction false} AddAtCapOvercounts(s: State, n: Note)
    requires Counted(s) && |s.notifications| == Cap && !s.notifications[Cap - 1].read && !n.read
    ensures AddNote(s, n).unreadCount == CountUnread(AddNote(s, n).notifications) + 1
  {
    var ns := s.notifications;
    assert ns == ns[..Cap - 1] + [ns[Cap - 1]];
    CountUnreadAppend(ns[..Cap - 1], [ns[Cap - 1]]);
    assert AddNote(s, n).notifications == [n] + ns[..Cap - 1];
    CountUnreadAppend([n], ns[..Cap - 1]);
  }

  /** Adding with the counter kept in step: when the list is full, the
      dropped notification's unread mark goes with it. */
  function AddNoteCounted(s: State, n: Note): State
  {
    var dropped := if |s.notifications| >= Cap && !s.notifications[Cap - 1].read then 1 else 0;
    State(Take([n] + s.notifications, Cap), s.unreadCount + 1 - dropped)
  }

  /** Marking read with the counter kept in step. */
  function MarkAsReadCounted(s: State, id: string): State
  {
    State(MarkRead(s.notifications, id), s.unreadCount - CountUnreadWith(s.notifications, id))
  }

  /** Removing with the counter kept in step. */
  function RemoveNoteCounted(s: State, id: string): State
  {
    State(Filter((n: Note) => n.id != id, s.notifications), s.unreadCount - CountUnreadWith(s.notifications, id))
  }

  /** With the corrected actions the counter always equals the number of
      unread notifications in the list. */
  lemma CorrectedActionsKeepCount(s: State, n: Note, id: string)
    requires Counted(s) && |s.notifications| <= Cap && !n.read
    ensures Counted(AddNoteCounted(s, n))
    ensures Counted(MarkAsReadCounted(s, id))
    ensures Counted(RemoveNoteCounted(s, id))
    ensures Counted(MarkAllAsRead(s)) && Counted(ClearAll(s))
  {
    var ns := s.notifications;
    CountUnreadAppend([n], ns);
    if |ns| == Cap {
      assert ns == ns[..Cap - 1] + [ns[Cap - 1]];
      CountUnreadAppend(ns[..Cap - 1], [ns[Cap - 1]]);
      assert AddNoteCounted(s, n).notifications == [n] + ns[..Cap - 1];
      CountUnreadAppend([n], ns[..Cap - 1]);
    }
    CountUnreadMarkRead(ns, id);
    CountUnreadRemove(ns, id);
    CountUnreadMarkAll(ns);
  }

  /** The store object (`useNotificationStore`). */
  class Store {
    var notifications: seq<Note>
    var unreadCount: int

    function Current(): State
      reads this
    {
      State(notifications, unreadCount)
    }

    constructor ()
      ensures Current() == State([], 0) && Valid(Current())
    {
      notifications, unreadCount := [], 0;
    }

    /** `set`: replaces the state. */
    method Set(s: State)
      modifies this
      ensures Current() == s
    {
      notifications, unreadCount := s.notifications, s.unreadCount;
    }

    method AddNotification(kind: Kind, title: string, message: string, id: string, timestamp: string)
      requires Valid(Current())
      modifies this
      ensures Current() == AddNote(old(Current()), Note(id, kind, message, title, timestamp, false))
      ensures Valid(Current()) && notifications[0].id == id && !notifications[0].read
    {
      Set(AddNote(Current(), Note(id, kind, message, title, timestamp, false)));
    }

    method MarkAsReadAction(id: string)
      requires Valid(Current())
      modifies this
      ensures Current() == MarkAsRead(old(Current()), id) && Valid(Current())
    {
      Set(MarkAsRead(Current(), id));
    }

    method MarkAllAsReadAction()
      requires Valid(Current())
      modifies this
      ensures Current() == MarkAllAsRead(old(Current())) && Valid(Current())
    {
      Set(MarkAllAsRead(Current()));
    }

    method RemoveNotification(id: string)
      requires Valid(Current())
      modifies this
      ensures Current() == RemoveNote(old(Current()), id) && Valid(Current())
    {
      Set(RemoveNote(Current(), id));
    }

    method ClearAllAction()
      modifies this
      ensures Current() == State([], 0) && Valid(Current())
    {
      Set(ClearAll(Current()));
    }
  }
}
