/**
 * The admin notifications list: its own copy of the notifications (seeded
 * from its props, extended by realtime inserts; without the prop the first
 * render throws), an unread badge derived from that copy, the copy shown
 * newest first, and a click that marks an unread notification read and
 * opens it. Its notification rows are the
 * provider's rows (it reads only id, message, `is_read` and `created_at`).
 */
module NotificationList {
  import opened Common
  import opened NotificationProvider

  datatype ListState = ListState(notifications: seq<Notification>, selected: Option<Notification>)

  /**
   * The first render: the state is seeded from the `initialNotifications`
   * prop, and rendering reads `notifications.filter`, which throws when the
   * prop was not passed. None: the render threw and the panel never mounts.
   */
  function Mount(initialNotifications: Option<seq<Notification>>): (s: Option<ListState>)
    ensures s.None? <==> initialNotifications.None?
    ensures s.Some? ==> s.value.notifications == initialNotifications.value && s.value.selected.None?
  {
    match initialNotifications
    case None => None
    case Some(ns) => Some(ListState(ns, None))
  }

  /** What both places in the navbar that render the list pass: no `initialNotifications` prop. */
  const PropsFromNavbar: Option<seq<Notification>> := None

  /** As written, the admin's notification panel throws on its first render wherever the navbar opens it. */
  lemma NavbarPanelNeverMounts()
    ensures Mount(PropsFromNavbar).None?
  {
  }

  /**
   * With the evidently intended default `initialNotifications = []`, the
   * panel always mounts: empty without the prop, as given with it.
   */
  function MountDefaulted(initialNotifications: Option<seq<Notification>>): (s: ListState)
    ensures initialNotifications.None? ==> s == ListState([], None)
    ensures initialNotifications.Some? ==> Some(s) == Mount(initialNotifications)
  {
    ListState(if initialNotifications.Some? then initialNotifications.value else [], None)
  }

  /** The realtime insert: the row is prepended as it arrives, with no default for `is_read`. */
  function OnInsert(s: ListState, n: Notification): (r: ListState)
    ensures r.selected == s.selected
    ensures |r.notifications| == |s.notifications| + 1 && r.notifications[0] == n
    ensures r.notifications[1..] == s.notifications
    ensures UnreadCount(r.notifications) == UnreadCount(s.notifications) + (if n.isRead then 0 else 1)
  {
    PrependCount(n, s.notifications);
    ListState([n] + s.notifications, s.selected)
  }

  /** `unreadCount > 0`: the red badge in the header. */
  predicate ShowsBadge(ns: seq<Notification>) {
    UnreadCount(ns) > 0
  }

  /** The badge shows exactly when some notification is unread. */
  lemma BadgeIff(ns: seq<Notification>)
    ensures ShowsBadge(ns) <==> exists i :: 0 <= i < |ns| && !ns[i].isRead
  {
    var unread := Filter(ns, Unread);
    if ShowsBadge(ns) {
      assert unread[0] in ns;
      var i :| 0 <= i < |ns| && ns[i] == unread[0];
      assert !ns[i].isRead;
    }
    if exists i :: 0 <= i < |ns| && !ns[i].isRead {
      var i :| 0 <= i < |ns| && !ns[i].isRead;
      assert ns[i] in unread;
    }
  }

  function CreatedAt(n: Notification): int {
    n.createdAt
  }

  /** `[...notifications].sort(...)` by `created_at`, newest first. */
  function SortedView(ns: seq<Notification>): (r: seq<Notification>)
    ensures multiset(r) == multiset(ns)
    ensures SortedDesc(r, CreatedAt)
    ensures |r| == |ns|
  {
    var r := SortDesc(ns, CreatedAt);
    assert |r| == |multiset(r)| == |multiset(ns)| == |ns|;
    r
  }

  /** "No notifications yet." is shown exactly when the list is empty, and the sorted view shows the same rows. */
  lemma SortedViewSpec(ns: seq<Notification>)
    ensures SortedView(ns) == [] <==> ns == []
    ensures forall n :: n in SortedView(ns) <==> n in ns
  {
    var r := SortedView(ns);
    forall n ensures n in r <==> n in ns {
      assert n in r <==> n in multiset(r);
      assert n in ns <==> n in multiset(ns);
    }
  }

  /**
   * A click on a row: an unread row is marked read (every row with its id),
   * a read row changes nothing; either way the row as it was clicked
   * becomes the selected one.
   */
  function Click(s: ListState, n: Notification): (r: ListState)
    ensures r.selected == Some(n)
    ensures n.isRead ==> r.notifications == s.notifications
    ensures !n.isRead ==> r.notifications == MarkReadWhereId(s.notifications, n.id)
  {
    var notifications := if !n.isRead then MarkReadWhereId(s.notifications, n.id) else s.notifications;
    ListState(notifications, Some(n))
  }

  /**
   * After a click the clicked id has no unread row left, and the badge
   * count fell by exactly the unread rows that carried it.
   */
  lemma ClickClearsId(s: ListState, n: Notification)
    ensures !n.isRead ==> UnreadWithId(Click(s, n).notifications, n.id) == 0
    ensures UnreadCount(Click(s, n).notifications) + (if n.isRead then 0 else UnreadWithId(s.notifications, n.id))
      == UnreadCount(s.notifications)
  {
    if !n.isRead {
      MarkReadIdempotent(s.notifications, n.id);
      MarkReadCount(s.notifications, n.id);
    }
  }
}
