/** The toast list behind `useNotifications`: a list of toasts, newest
    first, and whether the sheet is open. Ids come from one counter shared by
    every use of the hook, so the ids in a list never repeat. The clock
    reading of a new toast is a parameter. */
module NotificationsHook {

  import opened Text
  import opened Seqs

  datatype Kind = Success | Error | Info | Warning

  datatype Toast = Toast(id: string, kind: Kind, title: string, message: string, timestamp: int)

  const IdPrefix: string := "notification-"

  /** The id built from counter value `k`. */
  function IdFor(k: nat): (id: string)
    ensures |id| > |IdPrefix| && id[..|IdPrefix|] == IdPrefix
  {
    IdPrefix + NatToString(k)
  }

  /** Different counter values give different ids. */
  lemma IdForInjective(j: nat, k: nat)
    requires IdFor(j) == IdFor(k)
    ensures j == k
  {
    assert NatToString(j) == IdFor(j)[|IdPrefix|..];
    assert NatToString(k) == IdFor(k)[|IdPrefix|..];
    NatToStringInjective(j, k);
  }

  /** No two toasts of the list share an id. */
  predicate DistinctIds(ns: seq<Toast>)
  {
    forall i, j :: 0 <= i < j < |ns| ==> ns[i].id != ns[j].id
  }

  /** `id` was handed out before the counter reached `n`. */
  ghost predicate IssuedBefore(id: string, n: nat)
  {
    exists k: nat :: k < n && id == IdFor(k)
  }

  /** Removing toasts keeps the ids distinct. */
  lemma {:induction false} FilterKeepsDistinctIds(p: Toast -> bool, ns: seq<Toast>)
    requires DistinctIds(ns)
    ensures DistinctIds(Filter(p, ns))
  {
    if ns != [] {
      var rest := Filter(p, ns[1..]);
      FilterKeepsDistinctIds(p, ns[1..]);
      if p(ns[0]) {
        forall j | 0 <= j < |rest|
          ensures ns[0].id != rest[j].id
        {
          FilterMembers(p, ns[1..], rest[j]);
          var m :| 0 <= m < |ns[1..]| && ns[1..][m] == rest[j];
          assert ns[m + 1] == rest[j];
        }
        var r := [ns[0]] + rest;
        forall i, j | 0 <= i < j < |r|
          ensures r[i].id != r[j].id
        {
          if i > 0 {
            assert r[i] == rest[i - 1] && r[j] == rest[j - 1];
          } else {
            assert r[j] == rest[j - 1];
          }
        }
      }
    }
  }

  /** Removing by id drops exactly the toasts with that id and keeps the
      others in their order. */
  lemma RemoveEffect(ns: seq<Toast>, id: string, x: Toast)
    ensures x in Filter((n: Toast) => n.id != id, ns) <==> x in ns && x.id != id
    ensures IsSubsequence(Filter((n: Toast) => n.id != id, ns), ns)
  {
    FilterMembers((n: Toast) => n.id != id, ns, x);
    FilterIsSubsequence((n: Toast) => n.id != id, ns);
  }

  /** The module-level `notificationIdCounter`. */
  class IdCounter {
    var next: nat

    constructor ()
      ensures next == 0
    {
      next := 0;
    }
  }

  /** The state of one use of the hook. */
  class Hook {
    var notifications: seq<Toast>
    var isOpen: bool

    /** Every id was handed out by `counter`, and no id repeats. */
    ghost predicate Valid(counter: IdCounter)
      reads this, counter
    {
      && DistinctIds(notifications)
      && forall i :: 0 <= i < |notifications| ==> IssuedBefore(notifications[i].id, counter.next)
    }

    constructor (counter: IdCounter)
      ensures notifications == [] && !isOpen && Valid(counter)
    {
      notifications, isOpen := [], false;
    }

    /** `addNotification`: takes the next id from the counter and puts the
        toast in front of the earlier ones. */
    method Add(counter: IdCounter, kind: Kind, title: string, message: string, timestamp: int) returns (id: string)
      requires Valid(counter)
      modifies this, counter
      ensures id == IdFor(old(counter.next)) && counter.next == old(counter.next) + 1
      ensures notifications == [Toast(id, kind, title, message, timestamp)] + old(notifications)
      ensures isOpen == old(isOpen)
      ensures Valid(counter)
    {
      id := IdFor(counter.next);
      forall i | 0 <= i < |notifications|
        ensures notifications[i].id != id
      {
        assert IssuedBefore(notifications[i].id, counter.next);
        var k: nat :| k < counter.next && notifications[i].id == IdFor(k);
        if notifications[i].id == id {
          IdForInjective(k, counter.next);
        }
      }
      counter.next := counter.next + 1;
      var old_ns := notifications;
      notifications := [Toast(id, kind, title, message, timestamp)] + notifications;
      forall i | 0 <= i < |notifications|
        ensures IssuedBefore(notifications[i].id, counter.next)
      {
        if i == 0 {
          assert id == IdFor(counter.next - 1);
        } else {
          assert notifications[i] == old_ns[i - 1];
          var k: nat :| k < counter.next - 1 && old_ns[i - 1].id == IdFor(k);
        }
      }
      forall i, j | 0 <= i < j < |notifications|
        ensures notifications[i].id != notifications[j].id
      {
        assert notifications[j] == old_ns[j - 1];
        if i > 0 {
          assert notifications[i] == old_ns[i - 1];
        }
      }
    }

    /** `removeNotification`. */
    method Remove(counter: IdCounter, id: string)
      requires Valid(counter)
      modifies this
      ensures notifications == Filter((n: Toast) => n.id != id, old(notifications))
      ensures isOpen == old(isOpen)
      ensures Valid(counter)
    {
      var old_ns := notifications;
      notifications := Filter((n: Toast) => n.id != id, notifications);
      FilterKeepsDistinctIds((n: Toast) => n.id != id, old_ns);
      forall i | 0 <= i < |notifications|
        ensures IssuedBefore(notifications[i].id, counter.next)
      {
        FilterMembers((n: Toast) => n.id != id, old_ns, notifications[i]);
      }
    }

    /** `clearAll`. */
    method ClearAll(counter: IdCounter)
      modifies this
      ensures notifications == [] && isOpen == old(isOpen)
      ensures Valid(counter)
    {
      notifications := [];
    }

    /** `toggleSheet`: two toggles bring the sheet back to where it was. */
    method ToggleSheet()
      modifies this
      ensures isOpen == !old(isOpen) && notifications == old(notifications)
    {
      isOpen := !isOpen;
    }
  }
}
