/**
 * The `Bookings` table as the booking flow, the calendar, the payment routes
 * and the two bookings pages see it: one row per reservation, identified by
 * `id`, whose `status` column is a free string ("pending", "paid",
 * "accepted", "rejected").
 */
module BookingStore {
  import opened Common

  datatype Booking = Booking(
    id: string,
    userId: string,
    date: string,      // "YYYY-MM-DD"
    time: string,      // a slot label such as "14:00"
    status: string,
    packageId: string,
    fullName: string,
    email: string,
    mobile: string,
    location: string,
    createdAt: int)

  const Pending: string := "pending"
  const Paid: string := "paid"
  const Accepted: string := "accepted"
  const Rejected: string := "rejected"

  function HasId(id: string): Booking -> bool {
    (b: Booking) => b.id == id
  }

  function WithStatus(status: string): Booking -> Booking {
    (b: Booking) => b.(status := status)
  }

  /**
   * `rows.map(b => b.id === id ? { ...b, status } : b)`, which is also what
   * `update({ status }).eq("id", id)` does to the table.
   */
  function SetStatusWhereId(rows: seq<Booking>, id: string, status: string): seq<Booking>
  {
    MapWhere(rows, HasId(id), WithStatus(status))
  }

  /** Only rows with the given id change, and only in their status; order and length are kept. */
  lemma SetStatusOnlyTarget(rows: seq<Booking>, id: string, status: string)
    ensures |SetStatusWhereId(rows, id, status)| == |rows|
    ensures forall i :: 0 <= i < |rows| ==>
      var r := SetStatusWhereId(rows, id, status)[i];
      r.(status := rows[i].status) == rows[i] && (r.status == if rows[i].id == id then status else rows[i].status)
  {
  }

  /** Setting the same status twice leaves the table as after the first time. */
  lemma SetStatusIdempotent(rows: seq<Booking>, id: string, status: string)
    ensures SetStatusWhereId(SetStatusWhereId(rows, id, status), id, status) == SetStatusWhereId(rows, id, status)
  {
    MapWhereIdempotent(rows, HasId(id), WithStatus(status));
  }

  /**
   * The table itself, which the payment route and the booking form write to.
   * A failing request (`fails`) stands for an error returned by the hosted
   * database: nothing is written.
   */
  class BookingTable {
    var rows: seq<Booking>

    constructor (initial: seq<Booking>)
      ensures rows == initial
    {
      rows := initial;
    }

    /** `insert([row]).select().single()`: the row is added, or nothing happens. */
    method Insert(row: Booking, fails: bool) returns (inserted: Option<Booking>)
      modifies this
      ensures fails ==> inserted == None && rows == old(rows)
      ensures !fails ==> inserted == Some(row) && rows == old(rows) + [row]
    {
      if fails {
        inserted := None;
      } else {
        rows := rows + [row];
        inserted := Some(row);
      }
    }

    /** `update({ status }).eq("id", id)`. */
    method UpdateStatus(id: string, status: string, fails: bool) returns (ok: bool)
      modifies this
      ensures ok == !fails
      ensures rows == if ok then SetStatusWhereId(old(rows), id, status) else old(rows)
    {
      ok := !fails;
      if ok {
        rows := SetStatusWhereId(rows, id, status);
      }
    }
  }
}
