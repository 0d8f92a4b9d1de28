/**
 * The notifications context shared by the admin screens: the list of
 * notifications, newest first, and a separately kept unread counter. The
 * counter is loaded as the number of unread notifications, incremented on
 * every realtime insert and decremented (never below zero) on every
 * mark-as-read, so it agrees with the list only under the conditions
 * proved below. The store round-trips (the initial select, the
 * `is_read` update) are parameters: a failure flag, or nothing when the
 * component ignores the outcome.
 */
module NotificationProvider {
  import opened Common

  /** A row of the `notifications` table; `created_at` is a timestamp in milliseconds. */
  datatype Notification = Notification(
    id: string,
    kind: string,
    bookingId: string,
    message: string,
    isRead: bool,
    createdAt: int)

  predicate Unread(n: Notification) {
    !n.isRead
  }

  /** `notifications.filter((n) => !n.is_read).length` */
  function UnreadCount(ns: seq<Notification>): nat {
    CountWhere(ns, Unread)
  }

  /** The unread notifications carrying a given id. */
  function UnreadWithId(ns: seq<Notification>, id: string): nat {
    CountWhere(ns, (n: Notification) => n.id == id && !n.isRead)
  }

  /** `prev.map((n) => (n.id === id ? { ...n, is_read: true } : n))` */
  function MarkReadWhereId(ns: seq<Notification>, id: string): (r: seq<Notification>)
    ensures |r| == |ns|
    ensures forall i :: 0 <= i < |ns| ==> r[i] == (if ns[i].id == id then ns[i].(isRead := true) else ns[i])
  {
    MapWhere(ns, (n: Notification) => n.id == id, (n: Notification) => n.(isRead := true))
  }

  /** Prepending a notification adds one to the unread count exactly when it is unread. */
  lemma PrependCount(n: Notification, ns: seq<Notification>)
    ensures UnreadCount([n] + ns) == UnreadCount(ns) + (if n.isRead then 0 else 1)
  {
    assert ([n] + ns)[1..] == ns;
  }

  /**
   * Marking an id as read lowers the unread count by the number of unread
   * notifications with that id, and by nothing else.
   */
  lemma {:induction false} MarkReadCount(ns: seq<Notification>, id: string)
    ensures UnreadCount(MarkReadWhereId(ns, id)) + UnreadWithId(ns, id) == UnreadCount(ns)
  {
    if ns != [] {
      MarkReadCount(ns[1..], id);
      var r := MarkReadWhereId(ns, id);
      assert r[1..] == MarkReadWhereId(ns[1..], id);
    }
  }

  /** Marking read twice is the same as marking read once, and afterwards nothing with the id is unread. */
  lemma MarkReadIdempotent(ns: seq<Notification>, id: string)
    ensures MarkReadWhereId(MarkReadWhereId(ns, id), id) == MarkReadWhereId(ns, id)
    ensures UnreadWithId(MarkReadWhereId(ns, id), id) == 0
  {
    var once := MarkReadWhereId(ns, id);
    var twice := MarkReadWhereId(once, id);
    assert forall i :: 0 <= i < |ns| ==> twice[i] == once[i];
    var p := (n: Notification) => n.id == id && !n.isRead;
    assert forall i :: 0 <= i < |once| ==> !p(once[i]);
    CountWhereNone(once, p);
  }

  /** A realtime insert; `is_read` may be absent in the payload. */
  datatype InsertPayload = InsertPayload(
    id: string,
    kind: string,
    bookingId: string,
    message: string,
    isRead: Option<bool>,
    createdAt: int)

  /** The notification built from a payload: `is_read ?? false`. */
  function FromPayload(p: InsertPayload): (n: Notification)
    ensures n.isRead <==> p.isRead == Some(true)
    ensures n.id == p.id && n.message == p.message && n.createdAt == p.createdAt
  {
    Notification(p.id, p.kind, p.bookingId, p.message,
                 if p.isRead.Some? then p.isRead.value else false, p.createdAt)
  }

  /**
   * The counter stays equal to the unread count across an insert exactly
   * when the inserted notification is unread: an insert that arrives
   * already read still bumps the counter.
   */
  lemma InsertKeepsCounterIff(ns: seq<Notification>, counter: int, p: InsertPayload)
    requires counter == UnreadCount(ns)
    ensures counter + 1 == UnreadCount([FromPayload(p)] + ns) <==> p.isRead != Some(true)
  {
    PrependCount(FromPayload(p), ns);
  }

  /**
   * Starting from an agreeing counter, mark-as-read keeps the agreement
   * exactly when one unread notification carried the id, or when nothing
   * was unread at all; marking a read or unknown id still decrements.
   */
  lemma MarkKeepsCounterIff(ns: seq<Notification>, counter: int, id: string)
    requires counter == UnreadCount(ns)
    ensures Max(counter - 1, 0) == UnreadCount(MarkReadWhereId(ns, id)) <==>
      UnreadWithId(ns, id) == 1 || counter == 0
  {
    MarkReadCount(ns, id);
  }

  /** The provider's state. */
  class NotificationStore {
    var notifications: seq<Notification>
    var unreadCount: int

    /** The counter never goes negative. */
    ghost predicate Valid()
      reads this
    {
      unreadCount >= 0
    }

    /** The counter agrees with the list. */
    predicate Consistent()
      reads this
    {
      unreadCount == UnreadCount(notifications)
    }

    constructor()
      ensures notifications == [] && unreadCount == 0
      ensures Valid() && Consistent()
    {
      notifications := [];
      unreadCount := 0;
    }

    /**
     * The initial select: on an error nothing changes; otherwise the rows
     * (or none, when the store returns no data) replace the list and the
     * counter is their unread count.
     */
    method Load(fails: bool, data: Option<seq<Notification>>)
      requires Valid()
      modifies this
      ensures Valid()
      ensures fails ==> notifications == old(notifications) && unreadCount == old(unreadCount)
      ensures !fails ==> notifications == (if data.Some? then data.value else [])
      ensures !fails ==> Consistent()
    {
      if fails {
        return;
      }
      var rows := if data.Some? then data.value else [];
      notifications := rows;
      unreadCount := UnreadCount(rows);
    }

    /**
     * The realtime insert handler: an empty payload is ignored; otherwise
     * the new notification goes in front and the counter goes up by one,
     * whether or not it is unread.
     */
    method OnInsert(payload: Option<InsertPayload>)
      requires Valid()
      modifies this
      ensures Valid()
      ensures payload.None? ==> notifications == old(notifications) && unreadCount == old(unreadCount)
      ensures payload.Some? ==>
        && notifications == [FromPayload(payload.value)] + old(notifications)
        && unreadCount == old(unreadCount) + 1
      ensures payload.Some? && old(Consistent()) ==> (Consistent() <==> payload.value.isRead != Some(true))
    {
      if payload.None? {
        return;
      }
      if Consistent() {
        InsertKeepsCounterIff(notifications, unreadCount, payload.value);
      }
      notifications := [FromPayload(payload.value)] + notifications;
      unreadCount := unreadCount + 1;
    }

    /**
     * `markAsRead`: after the store update (its result is not inspected)
     * every notification with the id is read and the counter drops by one,
     * never below zero.
     */
    method MarkAsRead(id: string)
      requires Valid()
      modifies this
      ensures Valid()
      ensures notifications == MarkReadWhereId(old(notifications), id)
      ensures unreadCount == Max(old(unreadCount) - 1, 0)
      ensures old(Consistent()) ==>
        (Consistent() <==> UnreadWithId(old(notifications), id) == 1 || old(unreadCount) == 0)
    {
      if Consistent() {
        MarkKeepsCounterIff(notifications, unreadCount, id);
      }
      notifications := MarkReadWhereId(notifications, id);
      unreadCount := Max(unreadCount - 1, 0);
    }
  }
}
