/**
 * The site navigation bar: the bell's unread dot (derived from the shared
 * notifications list, not from the provider's counter), the
 * notifications/profile toggles that close each other and the mobile
 * menu, marking every unread notification read when the bell is clicked,
 * and the admin-only controls.
 */
module Navbar {
  import opened Common
  import opened NotificationProvider
  import NotificationList

  /** The ids `handleShowNotifications` passes to `markAsRead`: one per unread row, in list order. */
  function UnreadIds(ns: seq<Notification>): seq<string>
  {
    if ns == [] then []
    else (if ns[0].isRead then [] else [ns[0].id]) + UnreadIds(ns[1..])
  }

  /** Every row of `ns` with `is_read` set and nothing else changed. */
  function AllRead(ns: seq<Notification>): (r: seq<Notification>)
    ensures |r| == |ns|
    ensures forall k :: 0 <= k < |ns| ==> r[k] == ns[k].(isRead := true)
  {
    seq(|ns|, k requires 0 <= k < |ns| => ns[k].(isRead := true))
  }

  /** After the bell click nothing is unread, and the rows that were already read are untouched. */
  lemma AllReadSpec(ns: seq<Notification>)
    ensures UnreadCount(AllRead(ns)) == 0
    ensures forall k :: 0 <= k < |ns| && ns[k].isRead ==> AllRead(ns)[k] == ns[k]
  {
    CountWhereNone(AllRead(ns), Unread);
  }

  /** The ids handed to `markAsRead` are exactly the ids of the unread rows. */
  lemma {:induction false} UnreadIdsSpec(ns: seq<Notification>)
    ensures forall id :: id in UnreadIds(ns) <==> exists k :: 0 <= k < |ns| && !ns[k].isRead && ns[k].id == id
  {
    if ns != [] {
      UnreadIdsSpec(ns[1..]);
      forall id | id in UnreadIds(ns)
        ensures exists k :: 0 <= k < |ns| && !ns[k].isRead && ns[k].id == id
      {
        if !(!ns[0].isRead && ns[0].id == id) {
          assert id in UnreadIds(ns[1..]);
          var k :| 0 <= k < |ns[1..]| && !ns[1..][k].isRead && ns[1..][k].id == id;
          assert ns[k + 1] == ns[1..][k];
        }
      }
      forall id, k | 0 <= k < |ns| && !ns[k].isRead && ns[k].id == id
        ensures id in UnreadIds(ns)
      {
        if k > 0 {
          assert ns[1..][k - 1] == ns[k];
        }
      }
    }
  }

  /** Whether some unread row among the first `i` rows of `ns` carries `id`. */
  ghost predicate MarkedBefore(ns: seq<Notification>, i: int, id: string) {
    exists j :: 0 <= j < i && j < |ns| && !ns[j].isRead && ns[j].id == id
  }

  /** The list after the `markAsRead` calls for the first `i` rows of `ns`. */
  ghost function MarkedPrefix(ns: seq<Notification>, i: int): (r: seq<Notification>)
    ensures |r| == |ns|
  {
    seq(|ns|, k requires 0 <= k < |ns| => if MarkedBefore(ns, i, ns[k].id) then ns[k].(isRead := true) else ns[k])
  }

  /** One step of the bell loop: an unread row marks its id, a read row changes nothing. */
  lemma MarkedPrefixStep(ns: seq<Notification>, i: int)
    requires 0 <= i < |ns|
    ensures !ns[i].isRead ==> MarkReadWhereId(MarkedPrefix(ns, i), ns[i].id) == MarkedPrefix(ns, i + 1)
    ensures ns[i].isRead ==> MarkedPrefix(ns, i) == MarkedPrefix(ns, i + 1)
  {
    var before := MarkedPrefix(ns, i);
    var after := MarkedPrefix(ns, i + 1);
    if !ns[i].isRead {
      var marked := MarkReadWhereId(before, ns[i].id);
      forall k | 0 <= k < |ns| ensures marked[k] == after[k] {
        if ns[k].id == ns[i].id {
          assert MarkedBefore(ns, i + 1, ns[k].id);
        }
      }
    } else {
      forall k | 0 <= k < |ns| ensures before[k] == after[k] {
        assert MarkedBefore(ns, i + 1, ns[k].id) == MarkedBefore(ns, i, ns[k].id);
      }
    }
  }

  /** Once every row has been visited, every row is read. */
  lemma MarkedPrefixAll(ns: seq<Notification>)
    ensures MarkedPrefix(ns, |ns|) == AllRead(ns)
  {
    forall k | 0 <= k < |ns| ensures MarkedPrefix(ns, |ns|)[k] == AllRead(ns)[k] {
      if !ns[k].isRead {
        assert MarkedBefore(ns, |ns|, ns[k].id);
      }
    }
  }

  /** What the notifications panel area shows; `Open(None)` is a list whose render threw. */
  datatype PanelView = Hidden | Open(list: Option<NotificationList.ListState>)

  class NavbarState {
    /** The `role` cookie, `null` when absent or empty. */
    var role: Option<string>
    var isOpen: bool
    var showNotifications: bool
    var showProfileDropdown: bool
    const store: NotificationStore

    constructor(roleCookie: Option<string>, store: NotificationStore)
      ensures role == (if Truthy(roleCookie) then roleCookie else None)
      ensures !isOpen && !showNotifications && !showProfileDropdown
      ensures this.store == store
    {
      role := if Truthy(roleCookie) then roleCookie else None;
      isOpen := false;
      showNotifications := false;
      showProfileDropdown := false;
      this.store := store;
    }

    /** `role === "admin"`: the bell, the Admin links and the mobile notifications panel depend on it. */
    predicate IsAdmin()
      reads this
    {
      role == Some("admin")
    }

    /** The red dot on the bell: the bell is shown and some notification is unread. */
    function BellDot(): (r: bool)
      reads this, store
      ensures r <==> IsAdmin() && exists i :: 0 <= i < |store.notifications| && !store.notifications[i].isRead
    {
      NotificationList.BadgeIff(store.notifications);
      IsAdmin() && UnreadCount(store.notifications) > 0
    }

    /** The notifications panel is rendered only for an admin. */
    function PanelVisible(): (r: bool)
      reads this
      ensures r ==> IsAdmin()
      ensures r <==> showNotifications && role == Some("admin")
    {
      showNotifications && IsAdmin()
    }

    /**
     * The panel area: nothing while the panel is hidden; once visible, the
     * list is rendered without its `initialNotifications` prop, and that
     * render throws.
     */
    function Panel(): (v: PanelView)
      reads this
      ensures v.Hidden? <==> !PanelVisible()
      ensures v.Open? ==> v.list.None?
    {
      if !PanelVisible() then Hidden else Open(NotificationList.Mount(NotificationList.PropsFromNavbar))
    }

    /**
     * `handleShowNotifications`: toggles the panel, closes the profile
     * dropdown and the mobile menu, then calls `markAsRead` once for every
     * row that was unread when the bell was clicked, also when the click
     * closes the panel. `marked` lists the ids of those calls.
     */
    method HandleShowNotifications() returns (marked: seq<string>)
      requires store.Valid()
      modifies this, store
      ensures store.Valid()
      ensures showNotifications == !old(showNotifications)
      ensures !showProfileDropdown && !isOpen
      ensures role == old(role)
      ensures marked == UnreadIds(old(store.notifications))
      ensures store.notifications == AllRead(old(store.notifications))
      ensures store.unreadCount == Max(old(store.unreadCount) - UnreadCount(old(store.notifications)), 0)
      ensures old(store.Consistent()) ==> store.Consistent()
    {
      showNotifications := !showNotifications;
      showProfileDropdown := false;
      isOpen := false;

      marked := MarkAllUnread();
    }

    /** The `forEach` of `handleShowNotifications`: `markAsRead` for each row unread at the click. */
    method MarkAllUnread() returns (marked: seq<string>)
      requires store.Valid()
      modifies store
      ensures store.Valid()
      ensures marked == UnreadIds(old(store.notifications))
      ensures store.notifications == AllRead(old(store.notifications))
      ensures store.unreadCount == Max(old(store.unreadCount) - UnreadCount(old(store.notifications)), 0)
      ensures old(store.Consistent()) ==> store.Consistent()
    {
      var ns := store.notifications;
      var c0 := store.unreadCount;
      assert MarkedPrefix(ns, 0) == ns;
      marked := [];
      var i := 0;
      while i < |ns|
        invariant 0 <= i <= |ns|
        invariant store.Valid()
        invariant store.notifications == MarkedPrefix(ns, i)
        invariant store.unreadCount == Max(c0 - UnreadCount(ns[..i]), 0)
        invariant marked == UnreadIds(ns[..i])
      {
        UnreadIdsSnoc(ns[..i], ns[i]);
        CountWhereAppend(ns[..i], ns[i], Unread);
        assert ns[..i + 1] == ns[..i] + [ns[i]];
        MarkedPrefixStep(ns, i);
        CounterStep(c0, UnreadCount(ns[..i]));
        if !ns[i].isRead {
          store.MarkAsRead(ns[i].id);
          marked := marked + [ns[i].id];
        }
        i := i + 1;
      }
      assert ns[..i] == ns;
      MarkedPrefixAll(ns);
      if old(store.Consistent()) {
        AllReadSpec(ns);
      }
    }

    /** One more unread row lowers the clamped counter by one more. */
    static lemma CounterStep(c0: int, u: nat)
      ensures Max(Max(c0 - u, 0) - 1, 0) == Max(c0 - (u + 1), 0)
    {
    }

    /**
     * The navbar as the root layout mounts it: no notifications provider
     * wraps it, so `useNotifications()` yields the context's default, an
     * empty list whose `markAsRead` does nothing, and nothing ever loads or
     * inserts a row into it. That default is the store as constructed. A
     * bell click still toggles the panel, but marks nothing and leaves the
     * store as it was, so the precondition holds again for the next click
     * and the red dot never shows, however often the bell is clicked.
     */
    method HandleShowNotificationsWithoutProvider() returns (marked: seq<string>)
      requires store.Valid() && store.notifications == [] && store.unreadCount == 0
      modifies this, store
      ensures store.Valid() && store.notifications == [] && store.unreadCount == 0
      ensures showNotifications == !old(showNotifications)
      ensures role == old(role)
      ensures marked == []
      ensures !BellDot()
    {
      marked := HandleShowNotifications();
    }

    /** The profile button: toggles the dropdown and closes the notifications panel and the mobile menu. */
    method ToggleProfile()
      modifies this
      ensures showProfileDropdown == !old(showProfileDropdown)
      ensures !showNotifications && !isOpen
      ensures role == old(role)
    {
      showProfileDropdown := !showProfileDropdown;
      showNotifications := false;
      isOpen := false;
    }
  }

  lemma {:induction false} UnreadIdsSnoc(ns: seq<Notification>, n: Notification)
    ensures UnreadIds(ns + [n]) == UnreadIds(ns) + (if n.isRead then [] else [n.id])
  {
    if ns != [] {
      assert (ns + [n])[1..] == ns[1..] + [n];
      UnreadIdsSnoc(ns[1..], n);
    }
  }

  /**
   * With the context's default store, which holds no row, the bell has no
   * dot and a click has nothing to mark, whatever the role.
   */
  lemma NoDotWithoutProvider(nav: NavbarState)
    requires nav.store.notifications == []
    ensures !nav.BellDot()
    ensures UnreadIds(nav.store.notifications) == []
    ensures AllRead(nav.store.notifications) == nav.store.notifications
  {
  }
}
