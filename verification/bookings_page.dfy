/**
 * The customer's "My Bookings" page: the initial fetch of the user's
 * bookings, newest first, the three realtime reducers (INSERT prepends,
 * UPDATE replaces by id, DELETE removes by id) and the status badge.
 */
module BookingsPage {
  import opened Common
  import opened BookingStore

  function OwnedBy(userId: string): Booking -> bool {
    (b: Booking) => b.userId == userId
  }

  function CreatedAt(b: Booking): int {
    b.createdAt
  }

  /**
   * `select("*").eq("user_id", userId).order("created_at", { ascending: false })`;
   * a query error keeps the current list.
   */
  function InitialList(current: seq<Booking>, table: seq<Booking>, userId: string, queryFails: bool): seq<Booking>
  {
    if queryFails then current else SortDesc(Filter(table, OwnedBy(userId)), CreatedAt)
  }

  /**
   * The fetched list holds exactly the user's bookings, each as often as in
   * the table, newest first.
   */
  lemma InitialListSpec(table: seq<Booking>, userId: string)
    ensures var l := InitialList([], table, userId, false);
      && multiset(l) == multiset(Filter(table, OwnedBy(userId)))
      && SortedDesc(l, CreatedAt)
      && (forall i :: 0 <= i < |l| ==> l[i].userId == userId)
      && (forall i :: 0 <= i < |table| && table[i].userId == userId ==> table[i] in l)
  {
    var f := Filter(table, OwnedBy(userId));
    var l := SortDesc(f, CreatedAt);
    assert InitialList([], table, userId, false) == l;
    forall i | 0 <= i < |l| ensures l[i].userId == userId {
      assert l[i] in multiset(l);
      assert l[i] in f;
    }
    forall i | 0 <= i < |table| && table[i].userId == userId ensures table[i] in l {
      assert table[i] in f;
      assert table[i] in multiset(f);
    }
  }

  /** INSERT: `[payload.new, ...prev]`. */
  function OnInsert(prev: seq<Booking>, row: Booking): (r: seq<Booking>)
    ensures |r| == |prev| + 1 && r[0] == row && r[1..] == prev
  {
    [row] + prev
  }

  function Replace(row: Booking): Booking -> Booking {
    (b: Booking) => row
  }

  /** UPDATE: `prev.map(b => b.id === payload.new.id ? payload.new : b)`. */
  function OnUpdate(prev: seq<Booking>, row: Booking): seq<Booking>
  {
    MapWhere(prev, HasId(row.id), Replace(row))
  }

  /** DELETE: `prev.filter(b => b.id !== payload.old.id)`. */
  function OnDelete(prev: seq<Booking>, id: string): seq<Booking>
  {
    Filter(prev, (b: Booking) => b.id != id)
  }

  /**
   * UPDATE keeps length and positions; every element with the id becomes
   * the new record and every other element is untouched. Replaying the
   * event changes nothing.
   */
  lemma OnUpdateSpec(prev: seq<Booking>, row: Booking)
    ensures |OnUpdate(prev, row)| == |prev|
    ensures forall i :: 0 <= i < |prev| ==>
      OnUpdate(prev, row)[i] == if prev[i].id == row.id then row else prev[i]
    ensures OnUpdate(OnUpdate(prev, row), row) == OnUpdate(prev, row)
  {
    MapWhereIdempotent(prev, HasId(row.id), Replace(row));
  }

  /**
   * DELETE removes exactly the elements with the id: none is left, every
   * other element stays, the survivors keep their order, and the list
   * shrinks by the number of matching elements.
   */
  lemma OnDeleteSpec(prev: seq<Booking>, id: string)
    ensures forall i :: 0 <= i < |OnDelete(prev, id)| ==> OnDelete(prev, id)[i].id != id
    ensures forall i :: 0 <= i < |prev| && prev[i].id != id ==> prev[i] in OnDelete(prev, id)
    ensures IsSubsequence(OnDelete(prev, id), prev)
    ensures |OnDelete(prev, id)| == |prev| - CountWhere(prev, HasId(id))
  {
    FilterIsSubsequence(prev, (b: Booking) => b.id != id);
    FilterComplementCount(prev, HasId(id), (b: Booking) => b.id != id);
  }

  /** Deleting a record that was just inserted gives the list a plain delete would give. */
  lemma InsertThenDelete(prev: seq<Booking>, row: Booking)
    ensures OnDelete(OnInsert(prev, row), row.id) == OnDelete(prev, row.id)
  {
    assert OnInsert(prev, row)[1..] == prev;
  }

  datatype BadgeColor = Green | Yellow | Red

  datatype Badge = Badge(color: BadgeColor, text: string)

  /** The status badge: green for "paid", yellow for "pending", red for anything else; the text is the status in upper case. */
  function StatusBadge(status: string): (b: Badge)
    ensures b.color == Green <==> status == Paid
    ensures b.color == Yellow <==> status == Pending
    ensures b.color == Red <==> status != Paid && status != Pending
    ensures |b.text| == |status|
  {
    Badge(if status == Paid then Green else if status == Pending then Yellow else Red, ToUpper(status))
  }

  /** The text holds no lower-case ASCII letter, and upper-casing it again changes nothing. */
  lemma BadgeLabelUpper(status: string)
    ensures forall k :: 0 <= k < |StatusBadge(status).text| ==> !('a' <= StatusBadge(status).text[k] <= 'z')
    ensures ToUpper(StatusBadge(status).text) == StatusBadge(status).text
  {
  }
}
