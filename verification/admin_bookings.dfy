/**
 * The admin "Bookings Management" page: `updateStatus` writes the new
 * status to the store and, when the store reports no error, applies the
 * same change to the local list. The two buttons only ever send
 * "accepted" or "rejected", whatever the current status is.
 */
module AdminBookings {
  import opened Common
  import opened BookingStore

  /** The statuses the two buttons send. */
  predicate AdminStatus(status: string) {
    status == Accepted || status == Rejected
  }

  /** The local list after `updateStatus(id, status)`. */
  function UpdateStatus(bookings: seq<Booking>, id: string, status: string, storeFails: bool): seq<Booking>
  {
    if storeFails then bookings else SetStatusWhereId(bookings, id, status)
  }

  /**
   * On a store error the list is unchanged; otherwise only the booking
   * with the id changes, and only in its status, whatever that status was.
   */
  lemma UpdateStatusSpec(bookings: seq<Booking>, id: string, status: string, storeFails: bool)
    ensures storeFails ==> UpdateStatus(bookings, id, status, storeFails) == bookings
    ensures |UpdateStatus(bookings, id, status, storeFails)| == |bookings|
    ensures !storeFails ==> forall i :: 0 <= i < |bookings| ==>
      var after := UpdateStatus(bookings, id, status, storeFails)[i];
      && after.(status := bookings[i].status) == bookings[i]
      && after.status == (if bookings[i].id == id then status else bookings[i].status)
  {
    SetStatusOnlyTarget(bookings, id, status);
  }

  /**
   * The local list follows the store: after a successful update it equals
   * what the store holds, when it equalled the store before.
   */
  method UpdateStatusThrough(table: BookingTable, bookings: seq<Booking>, id: string, status: string, storeFails: bool)
    returns (local: seq<Booking>)
    requires table.rows == bookings
    modifies table
    ensures local == UpdateStatus(bookings, id, status, storeFails)
    ensures table.rows == local
  {
    var ok := table.UpdateStatus(id, status, storeFails);
    if !ok {
      return bookings;
    }
    local := SetStatusWhereId(bookings, id, status);
  }

  /** The two buttons on every row. */
  datatype Button = Accept | Reject

  /** The status each button sends: "accepted" and "rejected", whatever the row's current status. */
  function ButtonStatus(b: Button): (status: string)
    ensures AdminStatus(status)
    ensures b.Accept? <==> status == Accepted
  {
    match b
    case Accept => Accepted
    case Reject => Rejected
  }

  /** A button press on the row with `id`: `updateStatus(booking.id, …)`. */
  function Press(bookings: seq<Booking>, id: string, b: Button, storeFails: bool): seq<Booking> {
    UpdateStatus(bookings, id, ButtonStatus(b), storeFails)
  }

  /**
   * After a successful press every row with that id carries the button's
   * decision, "accepted" or "rejected"; every other row is untouched.
   */
  lemma AdminOnlySetsDecisions(bookings: seq<Booking>, id: string, b: Button)
    ensures |Press(bookings, id, b, false)| == |bookings|
    ensures forall i :: 0 <= i < |bookings| ==>
      var after := Press(bookings, id, b, false)[i];
      && (bookings[i].id == id ==> AdminStatus(after.status) && after.status == ButtonStatus(b))
      && (bookings[i].id != id ==> after == bookings[i])
  {
    SetStatusOnlyTarget(bookings, id, ButtonStatus(b));
  }
}
