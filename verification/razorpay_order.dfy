/**
 * `POST /api/razorpay/order`: checks the request, converts the amount from
 * rupees to paise, builds a receipt of at most 40 UTF-16 units and passes
 * the gateway's answer through. The gateway is a parameter: its reply (or
 * a network failure) is given, and the request the route would send is
 * part of the result.
 */
module RazorpayOrder {
  import opened Common

  const ReceiptPrefix: string := "receipt_"
  const MaxReceipt: nat := 40

  /**
   * `makeReceipt`: `receipt_<id>`, cut to its first 40 UTF-16 units when
   * longer. JavaScript's `length` and `slice` count units, not characters.
   */
  function MakeReceipt(bookingId: string): (r: seq<CodeUnit>)
    ensures |r| <= MaxReceipt
    ensures |r| == Min(MaxReceipt, Utf16Length(ReceiptPrefix + bookingId))
    ensures r == Utf16(ReceiptPrefix + bookingId)[..|r|]
    ensures Utf16Length(ReceiptPrefix + bookingId) <= MaxReceipt ==> r == Utf16(ReceiptPrefix + bookingId)
  {
    var base := Utf16(ReceiptPrefix + bookingId);
    if |base| > MaxReceipt then base[..MaxReceipt] else base
  }

  /** "receipt_" is plain ASCII: eight units, one per character. */
  lemma PrefixUnits()
    ensures Utf16Length(ReceiptPrefix) == |ReceiptPrefix| == 8
    ensures forall k :: 0 <= k < 8 ==> Utf16(ReceiptPrefix)[k] as int == ReceiptPrefix[k] as int
  {
    Utf16LengthBasic(ReceiptPrefix);
  }

  /**
   * Every receipt starts with the units of "receipt_", and ids of at most
   * 32 units are kept whole.
   */
  lemma ReceiptShape(bookingId: string)
    ensures |MakeReceipt(bookingId)| >= |ReceiptPrefix|
    ensures MakeReceipt(bookingId)[..|ReceiptPrefix|] == Utf16(ReceiptPrefix)
    ensures Utf16Length(bookingId) <= 32 ==> MakeReceipt(bookingId)[|ReceiptPrefix|..] == Utf16(bookingId)
  {
    PrefixUnits();
    Utf16Concat(ReceiptPrefix, bookingId);
  }

  /**
   * An id of characters up to U+FFFF, such as the UUID the booking form
   * sends, is counted in characters: the receipt is `receipt_<id>` cut to
   * 40 characters.
   */
  lemma ReceiptOfBasicId(bookingId: string)
    requires forall k :: 0 <= k < |bookingId| ==> bookingId[k] as int <= 0xFFFF
    ensures |MakeReceipt(bookingId)| == Min(MaxReceipt, |ReceiptPrefix| + |bookingId|)
    ensures forall k :: 0 <= k < |MakeReceipt(bookingId)| ==>
      MakeReceipt(bookingId)[k] as int == (ReceiptPrefix + bookingId)[k] as int
  {
    var base := ReceiptPrefix + bookingId;
    assert forall k :: 0 <= k < |base| ==> base[k] as int <= 0xFFFF by {
      forall k | 0 <= k < |base| ensures base[k] as int <= 0xFFFF {
        if k >= |ReceiptPrefix| {
          assert base[k] == bookingId[k - |ReceiptPrefix|];
        }
      }
    }
    Utf16LengthBasic(base);
  }

  /**
   * The cut can fall inside a surrogate pair: after 31 plain characters, a
   * character beyond U+FFFF in the id's 32nd place leaves the receipt
   * ending in a lone high surrogate.
   */
  lemma ReceiptSplitsPair(bookingId: string)
    requires |bookingId| == 32 && bookingId[31] as int > 0xFFFF
    requires forall k :: 0 <= k < 31 ==> bookingId[k] as int <= 0xFFFF
    ensures |MakeReceipt(bookingId)| == MaxReceipt
    ensures 0xD800 <= MakeReceipt(bookingId)[MaxReceipt - 1] < 0xDC00
  {
    var head := ReceiptPrefix + bookingId[..31];
    assert ReceiptPrefix + bookingId == head + [bookingId[31]];
    forall k | 0 <= k < |head| ensures head[k] as int <= 0xFFFF {
      if k >= |ReceiptPrefix| {
        assert head[k] == bookingId[k - |ReceiptPrefix|];
      }
    }
    AstralAfterBasic(head, bookingId[31]);
  }

  /** A character beyond U+FFFF after a plain text: its high surrogate lands right after the text's units. */
  lemma AstralAfterBasic(head: string, c: char)
    requires forall k :: 0 <= k < |head| ==> head[k] as int <= 0xFFFF
    requires c as int > 0xFFFF
    ensures Utf16Length(head + [c]) == |head| + 2
    ensures 0xD800 <= Utf16(head + [c])[|head|] < 0xDC00
  {
    Utf16LengthBasic(head);
    Utf16Concat(head, [c]);
    assert Utf16([c]) == CharUnits(c) + Utf16([]);
  }

  /**
   * Truncation loses information: two ids whose encodings agree on their
   * first 32 units get the same receipt.
   */
  lemma ReceiptCollision(a: string, b: string)
    requires Utf16Length(a) >= 32 && Utf16Length(b) >= 32 && Utf16(a)[..32] == Utf16(b)[..32]
    ensures MakeReceipt(a) == MakeReceipt(b)
  {
    PrefixUnits();
    Utf16Concat(ReceiptPrefix, a);
    Utf16Concat(ReceiptPrefix, b);
    assert Utf16(ReceiptPrefix + a)[..MaxReceipt] == Utf16(ReceiptPrefix) + Utf16(a)[..32];
    assert Utf16(ReceiptPrefix + b)[..MaxReceipt] == Utf16(ReceiptPrefix) + Utf16(b)[..32];
  }

  /** The parsed JSON body; a field that is absent is None. */
  datatype OrderBody = OrderBody(amount: Option<int>, bookingId: Option<string>)

  /** `!amount || !bookingId` fails on a missing field, on 0 and on "". */
  predicate ValidOrderBody(b: OrderBody) {
    b.amount.Some? && b.amount.value != 0 && Truthy(b.bookingId)
  }

  /** The order the route asks the gateway to create. */
  datatype GatewayRequest = GatewayRequest(amountPaise: int, currency: string, receipt: seq<CodeUnit>)

  /** The gateway's answer: an OK response with its JSON, a non-OK one with its status, or a network failure. */
  datatype GatewayReply =
    | GatewayOk(data: string)
    | GatewayError(status: int, details: string)
    | GatewayUnreachable

  predicate WellFormedReply(g: GatewayReply) {
    g.GatewayError? ==> !(200 <= g.status < 300)
  }

  datatype OrderReply =
    | OrderCreated(data: string, key: string)       // `{ ...data, key }`
    | OrderError(error: string, details: Option<string>)

  datatype Response = Response(status: int, reply: OrderReply)

  datatype Exchange = Exchange(sent: Option<GatewayRequest>, response: Response)

  /**
   * The route handler. `body` is None when the request body is not JSON,
   * which throws and ends in the catch-all 500.
   */
  function Post(body: Option<OrderBody>, key: string, gateway: GatewayReply): (x: Exchange)
    requires WellFormedReply(gateway)
    // the gateway is called iff the body parses and passes validation
    ensures x.sent.Some? <==> body.Some? && ValidOrderBody(body.value)
    ensures body.None? ==> x.response == Response(500, OrderError("Failed to create order", None))
    ensures body.Some? && !ValidOrderBody(body.value) ==>
      x.response == Response(400, OrderError("Amount and bookingId are required", None))
    // the request is in paise, in INR, with the receipt of the booking id
    ensures x.sent.Some? ==>
      && x.sent.value.amountPaise == 100 * body.value.amount.value
      && x.sent.value.currency == "INR"
      && x.sent.value.receipt == MakeReceipt(body.value.bookingId.value)
    // the response follows the gateway: its data and the key, its own error status, or 500
    ensures x.sent.Some? ==> match gateway
      case GatewayOk(data) => x.response == Response(200, OrderCreated(data, key))
      case GatewayError(status, details) => x.response == Response(status, OrderError("Razorpay order creation failed", Some(details)))
      case GatewayUnreachable => x.response == Response(500, OrderError("Failed to create order", None))
    ensures x.response.status == 200 <==> x.sent.Some? && gateway.GatewayOk?
  {
    match body
    case None => Exchange(None, Response(500, OrderError("Failed to create order", None)))
    case Some(b) =>
      if !ValidOrderBody(b) then
        Exchange(None, Response(400, OrderError("Amount and bookingId are required", None)))
      else
        var request := GatewayRequest(b.amount.value * 100, "INR", MakeReceipt(b.bookingId.value));
        var response :=
          match gateway
          case GatewayOk(data) => Response(200, OrderCreated(data, key))
          case GatewayError(status, details) => Response(status, OrderError("Razorpay order creation failed", Some(details)))
          case GatewayUnreachable => Response(500, OrderError("Failed to create order", None));
        Exchange(Some(request), response)
  }

  /** Validation does not look at the sign: a negative amount reaches the gateway as a negative paise amount. */
  lemma NegativeAmountPassesValidation(amount: int, bookingId: string, key: string, gateway: GatewayReply)
    requires amount < 0 && bookingId != "" && WellFormedReply(gateway)
    ensures Post(Some(OrderBody(Some(amount), Some(bookingId))), key, gateway).sent
      == Some(GatewayRequest(100 * amount, "INR", MakeReceipt(bookingId)))
  {
  }
}
