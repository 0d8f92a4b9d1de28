/**
 * `POST /api/verify-payment`: the same field check and signature gate as
 * the Razorpay verify route, followed by `update({ status: "paid" })
 * .eq("id", bookingId)` on the bookings table. The update is unconditional
 * on the booking's current status and there is no replay guard.
 */
module VerifyPayment {
  import opened Common
  import opened BookingStore
  import V = RazorpayVerify

  datatype Response = Response(status: int, success: bool, message: string)

  /** Whether the route reaches the `paid` update. */
  predicate ReachesUpdate(hmac: V.Hmac, secret: string, body: Option<V.PaymentFields>) {
    body.Some? && V.AllPresent(body.value) && V.SignatureMatches(hmac, secret, body.value)
  }

  /** The response, given whether the store reports an error for the update. */
  function Respond(hmac: V.Hmac, secret: string, body: Option<V.PaymentFields>, updateFails: bool): (r: Response)
    ensures body.None? ==> r == Response(500, false, "Verification failed")
    ensures body.Some? && !V.AllPresent(body.value) ==> r == Response(400, false, "Missing fields")
    ensures body.Some? && V.AllPresent(body.value) && !V.SignatureMatches(hmac, secret, body.value) ==>
      r == Response(400, false, "Invalid signature")
    ensures ReachesUpdate(hmac, secret, body) && updateFails ==> r == Response(500, false, "DB update failed")
    ensures r.success <==> ReachesUpdate(hmac, secret, body) && !updateFails
    ensures r.success <==> r.status == 200
  {
    match body
    case None => Response(500, false, "Verification failed")
    case Some(f) =>
      if !V.AllPresent(f) then Response(400, false, "Missing fields")
      else if hmac(secret, V.SignedMessage(f.orderId.value, f.paymentId.value)) != f.signature.value then
        Response(400, false, "Invalid signature")
      else if updateFails then Response(500, false, "DB update failed")
      else Response(200, true, "Payment verified")
  }

  /** The bookings after the request. */
  function RowsAfter(hmac: V.Hmac, secret: string, body: Option<V.PaymentFields>, updateFails: bool,
                     rows: seq<Booking>): seq<Booking>
  {
    if ReachesUpdate(hmac, secret, body) && !updateFails then SetStatusWhereId(rows, body.value.bookingId.value, Paid)
    else rows
  }

  /** The route handler, writing to the table. */
  method VerifyPayment(hmac: V.Hmac, secret: string, body: Option<V.PaymentFields>, updateFails: bool, table: BookingTable)
    returns (r: Response)
    modifies table
    ensures r == Respond(hmac, secret, body, updateFails)
    ensures table.rows == RowsAfter(hmac, secret, body, updateFails, old(table.rows))
  {
    if body.None? {
      return Response(500, false, "Verification failed");
    }
    var f := body.value;
    if !V.AllPresent(f) {
      return Response(400, false, "Missing fields");
    }
    var generated := hmac(secret, V.SignedMessage(f.orderId.value, f.paymentId.value));
    if generated != f.signature.value {
      return Response(400, false, "Invalid signature");
    }
    var ok := table.UpdateStatus(f.bookingId.value, Paid, updateFails);
    if !ok {
      return Response(500, false, "DB update failed");
    }
    r := Response(200, true, "Payment verified");
  }

  /**
   * Effect on the table: nothing is written unless the signature matched;
   * otherwise only rows whose id is the booking id change, and only their
   * status, which becomes "paid" whatever it was.
   */
  lemma PaidOnlyAfterSignature(hmac: V.Hmac, secret: string, body: Option<V.PaymentFields>, updateFails: bool, rows: seq<Booking>)
    ensures !ReachesUpdate(hmac, secret, body) ==> RowsAfter(hmac, secret, body, updateFails, rows) == rows
    ensures |RowsAfter(hmac, secret, body, updateFails, rows)| == |rows|
    ensures forall i :: 0 <= i < |rows| ==>
      var after := RowsAfter(hmac, secret, body, updateFails, rows)[i];
      && after.(status := rows[i].status) == rows[i]
      && (after != rows[i] ==> Respond(hmac, secret, body, updateFails).success && rows[i].id == body.value.bookingId.value && after.status == Paid)
  {
    if ReachesUpdate(hmac, secret, body) && !updateFails {
      SetStatusOnlyTarget(rows, body.value.bookingId.value, Paid);
    }
  }

  /**
   * Success means the booking is paid: every row with the booking id has
   * status "paid" afterwards.
   */
  lemma SuccessMeansPaid(hmac: V.Hmac, secret: string, body: Option<V.PaymentFields>, rows: seq<Booking>)
    requires Respond(hmac, secret, body, false).success
    ensures forall i :: 0 <= i < |rows| && rows[i].id == body.value.bookingId.value ==>
      RowsAfter(hmac, secret, body, false, rows)[i].status == Paid
  {
    SetStatusOnlyTarget(rows, body.value.bookingId.value, Paid);
  }

  /** Replaying the same verified request succeeds again and leaves the table as after the first one. */
  lemma ReplayIdempotent(hmac: V.Hmac, secret: string, body: Option<V.PaymentFields>, rows: seq<Booking>)
    ensures var once := RowsAfter(hmac, secret, body, false, rows);
      RowsAfter(hmac, secret, body, false, once) == once
  {
    if ReachesUpdate(hmac, secret, body) {
      SetStatusIdempotent(rows, body.value.bookingId.value, Paid);
    }
  }
}
