/**
 * `POST /api/razorpay/verify`: the payment-signature gate shared by both
 * verify routes. The signature expected for an order and a payment is
 * `HMAC-SHA256(secret, order_id + "|" + payment_id)` in hex (HMAC as in
 * RFC 2104); the keyed hash is a parameter `hmac(secret, message)`, so only
 * the equality gate is modelled.
 */
module RazorpayVerify {
  import opened Common

  type Hmac = (string, string) -> string

  /** The four fields of the JSON body; an absent field is None. */
  datatype PaymentFields = PaymentFields(
    bookingId: Option<string>,
    orderId: Option<string>,
    paymentId: Option<string>,
    signature: Option<string>)

  /** `!bookingId || !razorpay_order_id || !razorpay_payment_id || !razorpay_signature` is false. */
  predicate AllPresent(f: PaymentFields) {
    Truthy(f.bookingId) && Truthy(f.orderId) && Truthy(f.paymentId) && Truthy(f.signature)
  }

  /** The signed message `${razorpay_order_id}|${razorpay_payment_id}`. */
  function SignedMessage(orderId: string, paymentId: string): string {
    orderId + "|" + paymentId
  }

  /**
   * Order ids never contain '|', so the signed message determines the order
   * id and the payment id it was built from.
   */
  lemma SignedMessageInjective(o1: string, p1: string, o2: string, p2: string)
    requires '|' !in o1 && '|' !in o2
    requires SignedMessage(o1, p1) == SignedMessage(o2, p2)
    ensures o1 == o2 && p1 == p2
  {
    SplitAfterPart(o1, p1, '|');
    SplitAfterPart(o2, p2, '|');
    assert Split(SignedMessage(o1, p1), '|')[0] == o1;
    assert Split(SignedMessage(o2, p2), '|')[0] == o2;
    assert SignedMessage(o1, p1)[|o1| + 1..] == p1;
    assert SignedMessage(o2, p2)[|o2| + 1..] == p2;
  }

  /** Whether the supplied signature is the one the secret produces for the order and payment. */
  predicate SignatureMatches(hmac: Hmac, secret: string, f: PaymentFields)
    requires AllPresent(f)
  {
    hmac(secret, SignedMessage(f.orderId.value, f.paymentId.value)) == f.signature.value
  }

  datatype VerifyReply = Verified | VerifyError(error: string)

  datatype Response = Response(status: int, reply: VerifyReply)

  /**
   * The route handler; `body` is None when the body is not JSON (the
   * catch-all 500). No booking is read or written.
   */
  function Verify(hmac: Hmac, secret: string, body: Option<PaymentFields>): (r: Response)
    ensures body.None? ==> r == Response(500, VerifyError("Verification failed"))
    ensures body.Some? && !AllPresent(body.value) ==> r == Response(400, VerifyError("Missing required fields"))
    ensures r.reply == Verified <==>
      body.Some? && AllPresent(body.value) && SignatureMatches(hmac, secret, body.value)
    ensures r.reply == Verified ==> r.status == 200
    ensures body.Some? && AllPresent(body.value) && !SignatureMatches(hmac, secret, body.value) ==>
      r == Response(400, VerifyError("Invalid signature"))
  {
    match body
    case None => Response(500, VerifyError("Verification failed"))
    case Some(f) =>
      if !AllPresent(f) then Response(400, VerifyError("Missing required fields"))
      else if hmac(secret, SignedMessage(f.orderId.value, f.paymentId.value)) != f.signature.value then
        Response(400, VerifyError("Invalid signature"))
      else Response(200, Verified)
  }

  /**
   * The signature does not cover the booking: a valid (order, payment,
   * signature) triple verifies whatever booking id accompanies it.
   */
  lemma SignatureNotBoundToBooking(hmac: Hmac, secret: string, f: PaymentFields, otherBooking: string)
    requires AllPresent(f) && otherBooking != ""
    ensures Verify(hmac, secret, Some(f)) == Verify(hmac, secret, Some(f.(bookingId := Some(otherBooking))))
  {
  }
}
