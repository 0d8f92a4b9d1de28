/**
 * The booking form: the ordered guard chain, the pending booking it inserts,
 * the order amount it asks for, and the payment step sequence
 * (insert pending -> create order -> verify -> mark paid -> notify admin).
 * Every hosted call is a parameter: the database's answer to the insert, the
 * verify route's reply and the database's answer to the `paid` update.
 */
module BookingForm {
  import opened Common
  import opened BookingStore
  import Calendar
  import RV = RazorpayVerify

  datatype Package = Package(id: string, name: string, price: int)

  /** The component state the submission reads. */
  datatype FormInput = FormInput(
    userId: Option<string>,
    selectedPackage: Option<string>,
    fullName: string,
    email: string,
    mobile: string,
    location: Option<string>)   // the picked position, already `JSON.stringify`-ed

  /** The four guards, in the order they are checked. */
  datatype GuardError = NotLoggedIn | NoPackage | MissingContact | NoLocation

  function Rank(e: GuardError): nat {
    match e
    case NotLoggedIn => 0
    case NoPackage => 1
    case MissingContact => 2
    case NoLocation => 3
  }

  /** Whether the condition that `e` reports is satisfied by the form. */
  predicate GuardHolds(f: FormInput, e: GuardError) {
    match e
    case NotLoggedIn => Truthy(f.userId)
    case NoPackage => Truthy(f.selectedPackage)
    case MissingContact => f.fullName != "" && f.email != "" && f.mobile != ""
    case NoLocation => f.location.Some?
  }

  /**
   * The guard chain of `handleBooking`: the first failing guard, or None
   * when the submission may proceed.
   */
  function Validate(f: FormInput): (r: Option<GuardError>)
    ensures r.Some? ==> !GuardHolds(f, r.value)
    ensures r.None? <==> forall e: GuardError :: GuardHolds(f, e)
    ensures r.Some? ==> forall e: GuardError :: Rank(e) < Rank(r.value) ==> GuardHolds(f, e)
  {
    if !Truthy(f.userId) then Some(NotLoggedIn)
    else if !Truthy(f.selectedPackage) then Some(NoPackage)
    else if f.fullName == "" || f.email == "" || f.mobile == "" then Some(MissingContact)
    else if f.location.None? then Some(NoLocation)
    else None
  }

  /** `iso.split("T")[0]`: the date part of an ISO timestamp. */
  function DatePart(iso: string): string {
    Split(iso, 'T')[0]
  }

  /** For an ISO timestamp `d + "T" + rest`, the stored date is exactly `d`. */
  lemma DatePartOfIso(d: string, rest: string)
    requires 'T' !in d
    ensures DatePart(d + "T" + rest) == d
  {
    SplitAfterPart(d, rest, 'T');
  }

  /** `packages.find(p => p.id === id)`. */
  function FindPackage(packages: seq<Package>, id: string): (r: Option<Package>)
    ensures r.Some? ==> r.value in packages && r.value.id == id
    ensures r.None? <==> forall k :: 0 <= k < |packages| ==> packages[k].id != id
  {
    if packages == [] then None
    else if packages[0].id == id then Some(packages[0])
    else FindPackage(packages[1..], id)
  }

  lemma {:induction false} FindPackageFirst(packages: seq<Package>, id: string)
    requires FindPackage(packages, id).Some?
    ensures exists k :: (0 <= k < |packages| && packages[k] == FindPackage(packages, id).value
                         && forall j :: 0 <= j < k ==> packages[j].id != id)
  {
    if packages[0].id != id {
      FindPackageFirst(packages[1..], id);
      var k :| 0 <= k < |packages[1..]| && packages[1..][k] == FindPackage(packages, id).value
        && forall j :: 0 <= j < k ==> packages[1..][j].id != id;
      assert packages[k + 1] == FindPackage(packages, id).value;
    } else {
      assert packages[0] == FindPackage(packages, id).value;
    }
  }

  /** `pkg?.price || 500`: a missing package and a zero price both fall back to 500. */
  function OrderAmount(packages: seq<Package>, selected: string): int {
    match FindPackage(packages, selected)
    case Some(p) => if p.price != 0 then p.price else 500
    case None => 500
  }

  /**
   * The amount asked for is the price of the first package carrying the
   * selected id, or 500 when there is none or that price is 0; it is never 0.
   */
  lemma OrderAmountSpec(packages: seq<Package>, selected: string)
    ensures OrderAmount(packages, selected) != 0
    ensures (forall k :: 0 <= k < |packages| ==> packages[k].id != selected) ==> OrderAmount(packages, selected) == 500
    ensures forall k :: (0 <= k < |packages| && packages[k].id == selected && packages[k].price != 0
                         && (forall j :: 0 <= j < k ==> packages[j].id != selected)
                         ==> OrderAmount(packages, selected) == packages[k].price)
  {
    forall k | 0 <= k < |packages| && packages[k].id == selected && packages[k].price != 0
      && (forall j :: 0 <= j < k ==> packages[j].id != selected)
      ensures OrderAmount(packages, selected) == packages[k].price
    {
      FindPackageFirst(packages, selected);
    }
  }

  /** `pkg?.name` as a template literal prints it. */
  function PackageName(packages: seq<Package>, selected: string): string {
    match FindPackage(packages, selected)
    case Some(p) => p.name
    case None => "undefined"
  }

  /** The initial time selection. */
  const DefaultTime: string := "10:00"

  lemma DefaultTimeIsASlot()
    ensures DefaultTime in Calendar.TimeSlots()
  {
    assert Calendar.Digits(10) == Calendar.Digits(1) + [Calendar.DigitChar(0)];
    assert Calendar.TimeSlots()[1] == DefaultTime;
  }

  /** After the packages fetch: the first package is selected when there is one. */
  function DefaultPackage(fetched: seq<Package>, current: Option<string>): (r: Option<string>)
    ensures |fetched| > 0 ==> r == Some(fetched[0].id)
    ensures |fetched| == 0 ==> r == current
  {
    if |fetched| > 0 then Some(fetched[0].id) else current
  }

  /** With the default selection the order amount is the first package's price (or 500 when it is 0). */
  lemma DefaultPackageAmount(fetched: seq<Package>, current: Option<string>)
    requires |fetched| > 0
    ensures OrderAmount(fetched, DefaultPackage(fetched, current).value)
      == if fetched[0].price != 0 then fetched[0].price else 500
  {
  }

  /** The row inserted for a validated form. */
  function PendingBooking(f: FormInput, newId: string, iso: string, time: string, createdAt: int): (b: Booking)
    requires Validate(f).None?
  {
    Booking(newId, f.userId.value, DatePart(iso), time, Pending, f.selectedPackage.value,
            f.fullName, f.email, f.mobile, f.location.value, createdAt)
  }

  /** The inserted booking is pending, at the selected time, for the logged-in user, on the date part of the ISO string. */
  lemma PendingBookingFields(f: FormInput, newId: string, d: string, rest: string, time: string, createdAt: int)
    requires Validate(f).None? && 'T' !in d
    ensures var b := PendingBooking(f, newId, d + "T" + rest, time, createdAt);
      b.status == Pending && b.time == time && Some(b.userId) == f.userId && b.date == d
      && Some(b.packageId) == f.selectedPackage
  {
    DatePartOfIso(d, rest);
  }

  /** The requests the form sends to the site's own API routes. */
  datatype Request =
    | OrderRequest(amount: int, bookingId: string)
    | VerifyRequest(bookingId: string, orderId: string, paymentId: string, signature: string)
    | NotifyRequest(bookingId: string, message: string)

  /**
   * What the form gets back from the order route: nothing when the fetch or
   * its JSON throws, otherwise the parsed body, whose `id` and `amount` are
   * absent when the route answered with an error. The form never checks
   * which.
   */
  datatype OrderReply = OrderUnreachable | OrderBody(id: Option<string>, amount: Option<int>)

  /** The options the checkout opens with, and what its `handler` closes over. */
  datatype Checkout = Checkout(
    booking: Booking,
    orderId: Option<string>,
    amount: Option<int>,
    description: string,
    pkgName: string,
    userId: string)

  datatype SubmitOutcome =
    | GuardRejected(error: GuardError)
    | BookingFailed                      // "Booking creation failed" (or the store's message)
    | PaymentNotStarted(booking: Booking) // the row is in, but the order fetch or the checkout script threw
    | CheckoutOpened(checkout: Checkout)  // the payment widget is open

  /** What the checkout handler receives back from the verify route. */
  datatype VerifyReply = NetworkError | Replied(success: bool)

  datatype PaymentOutcome =
    | Confirmed            // paid, admin notified, redirected to the bookings page
    | ConfirmedNotifyError // verified, but the notify fetch threw: "Error verifying payment", no redirect
    | VerificationFailed
    | VerificationError

  const NotifyPrefix: string := "Payment completed for "
  const NotifyInfix: string := " by user "

  /** The admin notification text: the package name after a fixed opening, the user id at the end. */
  function NotifyMessage(pkgName: string, userId: string): (m: string)
    ensures |m| == |NotifyPrefix| + |pkgName| + |NotifyInfix| + |userId|
    ensures m[..|NotifyPrefix|] == NotifyPrefix
    ensures m[|NotifyPrefix|..|NotifyPrefix| + |pkgName|] == pkgName
    ensures m[|m| - |userId|..] == userId
  {
    NotifyPrefix + pkgName + NotifyInfix + userId
  }

  /** For package names of one length, the message determines the package and the user. */
  lemma NotifyMessageInjective(p1: string, u1: string, p2: string, u2: string)
    requires |p1| == |p2| && NotifyMessage(p1, u1) == NotifyMessage(p2, u2)
    ensures p1 == p2 && u1 == u2
  {
    var m := NotifyMessage(p1, u1);
    assert p1 == m[|NotifyPrefix|..|NotifyPrefix| + |p1|] == p2;
    assert u1 == m[|m| - |u1|..] == u2;
  }

  class BookingFlow {
    var loading: bool
    var requests: seq<Request>
    var redirectedToBookings: bool
    const table: BookingTable

    constructor (table: BookingTable)
      ensures this.table == table && !loading && requests == [] && !redirectedToBookings
    {
      this.table := table;
      loading := false;
      requests := [];
      redirectedToBookings := false;
    }

    /**
     * `handleBooking`: guards, then the pending insert, then the order
     * request, then the checkout; `loading` is back to false at the end. A
     * failing guard changes nothing (no insert, no request, `loading`
     * untouched); a failing insert requests no order. Once the row is in,
     * it stays `pending` whatever follows: an unreachable order route or a
     * missing checkout script (`window.Razorpay`) ends in the catch, and a
     * failed order still opens the checkout, with no order id.
     */
    method HandleBooking(f: FormInput, packages: seq<Package>, iso: string, time: string,
                         newId: string, createdAt: int, insertFails: bool,
                         order: OrderReply, checkoutLoaded: bool)
      returns (outcome: SubmitOutcome)
      modifies this, table
      ensures Validate(f).Some? ==>
        && outcome == GuardRejected(Validate(f).value)
        && requests == old(requests) && table.rows == old(table.rows) && loading == old(loading)
      ensures Validate(f).None? ==> !loading
      ensures Validate(f).None? && insertFails ==>
        && outcome == BookingFailed
        && requests == old(requests) && table.rows == old(table.rows)
      ensures Validate(f).None? && !insertFails ==>
        var b := PendingBooking(f, newId, iso, time, createdAt);
        && table.rows == old(table.rows) + [b]
        && requests == old(requests) + [OrderRequest(OrderAmount(packages, f.selectedPackage.value), newId)]
        && (order.OrderUnreachable? || !checkoutLoaded ==> outcome == PaymentNotStarted(b))
        && (order.OrderBody? && checkoutLoaded ==>
              var name := PackageName(packages, f.selectedPackage.value);
              outcome == CheckoutOpened(Checkout(b, order.id, order.amount, name + " Package", name, f.userId.value)))
      ensures redirectedToBookings == old(redirectedToBookings)
    {
      var guard := Validate(f);
      if guard.Some? {
        return GuardRejected(guard.value);
      }
      loading := true;
      var row := PendingBooking(f, newId, iso, time, createdAt);
      var inserted := table.Insert(row, insertFails);
      if inserted.None? {
        outcome := BookingFailed;
      } else {
        var booking := inserted.value;
        var amount := OrderAmount(packages, f.selectedPackage.value);
        requests := requests + [OrderRequest(amount, booking.id)];
        if order.OrderUnreachable? || !checkoutLoaded {
          outcome := PaymentNotStarted(booking);
        } else {
          var name := PackageName(packages, f.selectedPackage.value);
          outcome := CheckoutOpened(Checkout(booking, order.id, order.amount, name + " Package", name, f.userId.value));
        }
      }
      loading := false;
    }

    /**
     * The checkout `handler` for checkout `c`: the verify request is always
     * sent; only a reply with `success` marks the booking paid and notifies
     * the admin. A failing `paid` update is not noticed: the notification
     * is sent anyway. The redirect follows the notify fetch, so when that
     * fetch throws the booking is paid but the customer sees an error and
     * stays on the page.
     */
    method OnPaymentResponse(c: Checkout, orderId: string, paymentId: string, signature: string,
                             reply: VerifyReply, updateFails: bool, notifyFails: bool)
      returns (outcome: PaymentOutcome)
      modifies this, table
      ensures var verified := reply == Replied(true);
        && outcome == (if verified then (if notifyFails then ConfirmedNotifyError else Confirmed)
                       else if reply.NetworkError? then VerificationError else VerificationFailed)
        && table.rows == (if verified && !updateFails then SetStatusWhereId(old(table.rows), c.booking.id, Paid) else old(table.rows))
        && requests == old(requests) + [VerifyRequest(c.booking.id, orderId, paymentId, signature)]
                       + (if verified then [NotifyRequest(c.booking.id, NotifyMessage(c.pkgName, c.userId))] else [])
        && redirectedToBookings == (old(redirectedToBookings) || (verified && !notifyFails))
      ensures loading == old(loading)
    {
      requests := requests + [VerifyRequest(c.booking.id, orderId, paymentId, signature)];
      match reply {
        case NetworkError =>
          outcome := VerificationError;
        case Replied(success) =>
          if success {
            var _ := table.UpdateStatus(c.booking.id, Paid, updateFails);
            requests := requests + [NotifyRequest(c.booking.id, NotifyMessage(c.pkgName, c.userId))];
            if notifyFails {
              outcome := ConfirmedNotifyError;
            } else {
              redirectedToBookings := true;
              outcome := Confirmed;
            }
          } else {
            outcome := VerificationFailed;
          }
      }
    }
  }

  /**
   * The whole protocol on the table: after a successful submission and a
   * verified payment whose update succeeds, the new booking is `paid` and
   * every earlier row is untouched when ids are unique.
   */
  lemma SubmitThenPayMarksPaid(before: seq<Booking>, b: Booking)
    requires b.status == Pending
    requires forall k :: 0 <= k < |before| ==> before[k].id != b.id
    ensures SetStatusWhereId(before + [b], b.id, Paid) == before + [b.(status := Paid)]
  {
    var after := SetStatusWhereId(before + [b], b.id, Paid);
    assert (before + [b])[|before|] == b;
    forall k | 0 <= k < |before| ensures after[k] == before[k] {
      assert (before + [b])[k] == before[k];
    }
  }

  /**
   * What the payment handler reads from the verify route: `verifyData.success`
   * is true only for the route's `{ success: true }` body; its error bodies
   * carry no `success` field.
   */
  function ReplyOf(r: RV.Response): (reply: VerifyReply)
    ensures reply.Replied?
    ensures reply == Replied(true) <==> r.reply == RV.Verified
  {
    Replied(r.reply.Verified?)
  }

  /**
   * The form and the verify route together: with the ids the checkout hands
   * back, the handler sees a success iff the signature matches, and then its
   * status update (`OnPaymentResponse`) leaves the new booking `paid` and
   * every earlier row untouched.
   */
  lemma PaidIffRouteVerifies(hmac: RV.Hmac, secret: string, before: seq<Booking>, b: Booking,
                             orderId: string, paymentId: string, signature: string)
    requires b.status == Pending && b.id != "" && orderId != "" && paymentId != "" && signature != ""
    requires forall k :: 0 <= k < |before| ==> before[k].id != b.id
    ensures var fields := RV.PaymentFields(Some(b.id), Some(orderId), Some(paymentId), Some(signature));
      var reply := ReplyOf(RV.Verify(hmac, secret, Some(fields)));
      && (reply == Replied(true) <==> hmac(secret, RV.SignedMessage(orderId, paymentId)) == signature)
      && (reply == Replied(true) ==> SetStatusWhereId(before + [b], b.id, Paid) == before + [b.(status := Paid)])
  {
    SubmitThenPayMarksPaid(before, b);
  }
}
