/**
 * `POST /api/contact`: a per-IP fixed-window rate limiter held in a
 * module-level dictionary that the route mutates in place, followed by the
 * ordered validation of the JSON body (honeypot, required fields, length
 * cap, email pattern) and the two outgoing mails, whose delivery is a
 * parameter.
 */
module ContactRoute {
  import opened Common

  // ---------------------------------------------------------------------------
  // Client address

  /**
   * `req.headers.get("x-forwarded-for")?.split(",")[0]?.trim() || "unknown"`:
   * the first comma-separated entry of the header, trimmed, or "unknown"
   * when the header is absent or that entry trims to the empty string.
   */
  function ClientIp(forwardedFor: Option<string>): (ip: string)
    ensures ip != ""
    ensures forwardedFor.None? ==> ip == "unknown"
    ensures forwardedFor.Some? && AllSpace(Split(forwardedFor.value, ',')[0]) ==> ip == "unknown"
    ensures forwardedFor.Some? && !AllSpace(Split(forwardedFor.value, ',')[0]) ==>
      && ip == Trim(Split(forwardedFor.value, ',')[0])
      && ',' !in ip
      && !IsSpace(ip[0]) && !IsSpace(ip[|ip| - 1])
  {
    match forwardedFor
    case None => "unknown"
    case Some(h) =>
      var first := Trim(Split(h, ',')[0]);
      SplitFirstPart(h, ',');
      TrimEmptyIff(Split(h, ',')[0]);
      if first == "" then "unknown" else first
  }

  /** For a header `a, b, …`, the address is the trimmed first entry; an all-blank first entry gives "unknown". */
  lemma ClientIpOfList(first: string, rest: string)
    requires ',' !in first
    ensures ClientIp(Some(first + "," + rest)) == if AllSpace(first) then "unknown" else Trim(first)
  {
    SplitAfterPart(first, rest, ',');
  }

  /** The `|| "unknown"` applies to the whole chain: a blank first entry falls back to "unknown", not to "". */
  lemma BlankFirstEntryIsUnknown()
    ensures ClientIp(Some(" ,1.2.3.4")) == "unknown"
  {
    assert " " + "," + "1.2.3.4" == " ,1.2.3.4";
    assert AllSpace(" ");
    ClientIpOfList(" ", "1.2.3.4");
  }

  // ---------------------------------------------------------------------------
  // Fixed-window rate limiter

  const WindowMs: int := 60 * 60 * 1000
  const MaxRequests: int := 5

  datatype Entry = Entry(count: int, lastRequest: int)

  datatype Decision = Decision(entry: Entry, allowed: bool)

  /** What one request from an address does to that address's entry. */
  function StepEntry(e: Option<Entry>, now: int): Decision {
    match e
    case None => Decision(Entry(1, now), true)
    case Some(x) =>
      if now - x.lastRequest > WindowMs then Decision(Entry(1, now), true)
      else Decision(Entry(x.count + 1, x.lastRequest), x.count + 1 <= MaxRequests)
  }

  /** A request sequence from one address: the final entry and how many requests were let through. */
  function Replay(e: Option<Entry>, times: seq<int>): (r: (Option<Entry>, nat))
    ensures times != [] ==> r.0.Some?
    ensures times == [] ==> r == (e, 0)
    decreases |times|
  {
    if times == [] then (e, 0)
    else
      var d := StepEntry(e, times[0]);
      var rest := Replay(Some(d.entry), times[1..]);
      (rest.0, rest.1 + if d.allowed then 1 else 0)
  }

  /**
   * Inside a window that started at `w` with `c` requests counted, further
   * requests only increase the count, never move the window start, and at
   * most `5 - c` of them pass.
   */
  lemma {:induction false} ReplayWithinWindow(c: int, w: int, times: seq<int>)
    requires c >= 1
    requires forall k :: 0 <= k < |times| ==> times[k] - w <= WindowMs
    ensures Replay(Some(Entry(c, w)), times).0 == Some(Entry(c + |times|, w))
    ensures Replay(Some(Entry(c, w)), times).1 <= Max(0, MaxRequests - c)
    decreases |times|
  {
    if times != [] {
      ReplayWithinWindow(c + 1, w, times[1..]);
    }
  }

  /**
   * The limit: of the requests an address makes within one hour of the
   * request that opened its window, at most five are let through.
   */
  lemma AtMostFivePerWindow(e: Option<Entry>, times: seq<int>)
    requires times != []
    requires StepEntry(e, times[0]).entry == Entry(1, times[0])
    requires forall k :: 0 <= k < |times| ==> times[k] - times[0] <= WindowMs
    ensures Replay(e, times).1 <= MaxRequests
  {
    ReplayWithinWindow(1, times[0], times[1..]);
  }

  /** After more than an hour of silence the next request opens a new window and passes. */
  lemma QuietHourResets(e: Entry, now: int)
    requires now - e.lastRequest > WindowMs
    ensures StepEntry(Some(e), now) == Decision(Entry(1, now), true)
  {
  }

  /** Rejected requests still count, so an address that keeps retrying stays blocked until the window ends. */
  lemma RejectedRequestsCount(e: Entry, now: int)
    requires e.count >= MaxRequests && now - e.lastRequest <= WindowMs
    ensures var d := StepEntry(Some(e), now);
      !d.allowed && d.entry.count == e.count + 1 && StepEntry(Some(d.entry), now).allowed == false
  {
  }

  // ---------------------------------------------------------------------------
  // The dictionary

  /** The names every plain object inherits from `Object.prototype`. */
  const InheritedNames: set<string> := {
    "constructor", "__proto__", "toString", "toLocaleString", "valueOf", "hasOwnProperty",
    "isPrototypeOf", "propertyIsEnumerable", "__defineGetter__", "__defineSetter__",
    "__lookupGetter__", "__lookupSetter__"}

  /** How `rateLimit[ip]` is looked up. */
  datatype Keys =
    | PlainObject   // the object literal `{}` the route declares: inherited names answer too
    | OwnKeysOnly   // a `Map`, or an own-property test before the lookup

  /** What the lookup finds: the address's own entry, a member inherited from `Object.prototype`, or `undefined`. */
  datatype Slot = Absent | Own(entry: Entry) | Inherited

  function OwnEntry(entries: map<string, Entry>, ip: string): Option<Entry> {
    if ip in entries then Some(entries[ip]) else None
  }

  function Lookup(entries: map<string, Entry>, ip: string, keys: Keys): (s: Slot)
    ensures s.Own? <==> ip in entries
    ensures s.Own? ==> s.entry == entries[ip]
    ensures s.Inherited? <==> keys == PlainObject && ip !in entries && ip in InheritedNames
  {
    if ip in entries then Own(entries[ip])
    else if keys == PlainObject && ip in InheritedNames then Inherited
    else Absent
  }

  /**
   * One request from `ip`: the new dictionary and whether the request
   * passes. An inherited member is truthy, so no entry is created; its
   * `lastRequest` is `undefined`, so the elapsed time is NaN and the window
   * never resets; `count++` makes NaN, and `NaN > 5` is false, so the
   * request passes. The NaN is written onto the inherited object, not into
   * the dictionary.
   */
  function Step(entries: map<string, Entry>, ip: string, now: int, keys: Keys): (map<string, Entry>, bool) {
    if Lookup(entries, ip, keys).Inherited? then (entries, true)
    else
      var d := StepEntry(OwnEntry(entries, ip), now);
      (entries[ip := d.entry], d.allowed)
  }

  /** Requests from one address at the given times: the final dictionary and how many passed. */
  function ReplayAt(entries: map<string, Entry>, ip: string, times: seq<int>, keys: Keys): (map<string, Entry>, nat)
    decreases |times|
  {
    if times == [] then (entries, 0)
    else
      var s := Step(entries, ip, times[0], keys);
      var rest := ReplayAt(s.0, ip, times[1..], keys);
      (rest.0, rest.1 + if s.1 then 1 else 0)
  }

  /**
   * For an address that is not an inherited name (or with own-key lookup),
   * the dictionary behaves as the per-address step: as many requests pass
   * as `Replay` lets through.
   */
  lemma {:induction false} ReplayAtOwn(entries: map<string, Entry>, ip: string, times: seq<int>, keys: Keys)
    requires keys == OwnKeysOnly || ip !in InheritedNames || ip in entries
    ensures ReplayAt(entries, ip, times, keys).1 == Replay(OwnEntry(entries, ip), times).1
    decreases |times|
  {
    if times != [] {
      var d := StepEntry(OwnEntry(entries, ip), times[0]);
      var entries' := entries[ip := d.entry];
      assert Step(entries, ip, times[0], keys) == (entries', d.allowed);
      assert OwnEntry(entries', ip) == Some(d.entry);
      ReplayAtOwn(entries', ip, times[1..], keys);
    }
  }

  /**
   * As written, an address spelled like an inherited member ("constructor",
   * "__proto__", …) is never limited: every request passes and the
   * dictionary never changes.
   */
  lemma {:induction false} InheritedNameNeverLimited(entries: map<string, Entry>, ip: string, times: seq<int>)
    requires ip in InheritedNames && ip !in entries
    ensures ReplayAt(entries, ip, times, PlainObject) == (entries, |times|)
    decreases |times|
  {
    if times != [] {
      InheritedNameNeverLimited(entries, ip, times[1..]);
    }
  }

  /** Six requests in the same instant with `X-Forwarded-For: constructor` all pass. */
  lemma SixFromConstructorAllPass(now: int)
    ensures ReplayAt(map[], "constructor", seq(6, _ => now), PlainObject).1 == 6
  {
    InheritedNameNeverLimited(map[], "constructor", seq(6, _ => now));
  }

  /**
   * The limit on the dictionary: of the requests an address makes within
   * an hour of the one that opened its window, at most five pass, for
   * every address once lookups see own keys only, and for every address
   * that is not an inherited name as written.
   */
  lemma AtMostFivePerWindowAt(entries: map<string, Entry>, ip: string, times: seq<int>, keys: Keys)
    requires keys == OwnKeysOnly || ip !in InheritedNames
    requires times != []
    requires StepEntry(OwnEntry(entries, ip), times[0]).entry == Entry(1, times[0])
    requires forall k :: 0 <= k < |times| ==> times[k] - times[0] <= WindowMs
    ensures ReplayAt(entries, ip, times, keys).1 <= MaxRequests
  {
    ReplayAtOwn(entries, ip, times, keys);
    AtMostFivePerWindow(OwnEntry(entries, ip), times);
  }

  // ---------------------------------------------------------------------------
  // Body validation

  datatype ContactBody = ContactBody(
    name: Option<string>,
    email: Option<string>,
    phone: Option<string>,
    message: Option<string>,
    honeypot: Option<string>)

  datatype ContactError = Spam | MissingFields | MessageTooLong | InvalidEmail

  const MaxMessage: nat := 2000

  /** `!field?.trim()` is false: the field is present and not blank. */
  predicate Filled(field: Option<string>) {
    field.Some? && Trim(field.value) != ""
  }

  /** Neither white space nor '@': the class `[^\s@]`. */
  predicate PlainChar(c: char) {
    !IsSpace(c) && c != '@'
  }

  predicate Plain(s: string) {
    forall k :: 0 <= k < |s| ==> PlainChar(s[k])
  }

  /**
   * The strings `^[^\s@]+@[^\s@]+\.[^\s@]+$` matches, written as the regular
   * expression reads: a non-empty plain local part, an '@', and a plain
   * domain with a '.' that has at least one character on each side.
   */
  ghost predicate MatchesEmailPattern(s: string) {
    exists at, dot :: 0 < at && at + 1 < dot < |s| - 1 && s[at] == '@' && s[dot] == '.'
      && Plain(s[..at]) && Plain(s[at + 1..])
  }

  /** The check as the route performs it: split at the first '@', then test both sides. */
  function EmailOk(s: string): bool {
    match IndexOf(s, "@")
    case None => false
    case Some(at) =>
      var domain := s[at + 1..];
      at > 0 && Plain(s[..at]) && Plain(domain) && |domain| >= 3 && '.' in domain[1..|domain| - 1]
  }

  lemma EmailOkSound(s: string)
    requires EmailOk(s)
    ensures MatchesEmailPattern(s)
  {
    var at := IndexOf(s, "@").value;
    var domain := s[at + 1..];
    var j :| 0 <= j < |domain[1..|domain| - 1]| && domain[1..|domain| - 1][j] == '.';
    var dot := at + 2 + j;
    assert s[at..at + 1] == "@";
    assert s[dot] == '.';
  }

  lemma EmailOkComplete(s: string)
    requires MatchesEmailPattern(s)
    ensures EmailOk(s)
  {
    var at, dot :| 0 < at && at + 1 < dot < |s| - 1 && s[at] == '@' && s[dot] == '.'
      && Plain(s[..at]) && Plain(s[at + 1..]);
    FirstAt(s, at);
    DotInDomain(s, at, dot);
  }

  /** A '.' strictly inside the part after the '@' is one the route's domain test finds. */
  lemma DotInDomain(s: string, at: nat, dot: nat)
    requires at + 1 < dot < |s| - 1 && s[dot] == '.'
    ensures var domain := s[at + 1..]; |domain| >= 3 && '.' in domain[1..|domain| - 1]
  {
    var domain := s[at + 1..];
    var inner := domain[1..|domain| - 1];
    assert inner[dot - at - 2] == s[dot];
  }

  /** An '@' with no '@' before it is the one `indexOf("@")` finds. */
  lemma FirstAt(s: string, at: nat)
    requires at < |s| && s[at] == '@' && Plain(s[..at])
    ensures IndexOf(s, "@") == Some(at)
  {
    assert OccursAt(s, "@", at);
    forall k | 0 <= k < at ensures !OccursAt(s, "@", k) {
      assert PlainChar(s[..at][k]);
      assert s[k..k + 1][0] == s[k];
    }
  }

  /** The route's check accepts exactly the strings the pattern matches. */
  lemma EmailOkIff(s: string)
    ensures EmailOk(s) <==> MatchesEmailPattern(s)
  {
    if EmailOk(s) {
      EmailOkSound(s);
    }
    if MatchesEmailPattern(s) {
      EmailOkComplete(s);
    }
  }

  /** The checks in the route's order; the first failing one is reported. */
  function CheckBody(b: ContactBody): (r: Option<ContactError>)
    ensures r == Some(Spam) <==> Truthy(b.honeypot)
    ensures r == Some(MissingFields) <==>
      !Truthy(b.honeypot) && !(Filled(b.name) && Filled(b.email) && Filled(b.message))
    ensures r == Some(MessageTooLong) <==>
      !Truthy(b.honeypot) && Filled(b.name) && Filled(b.email) && Filled(b.message)
      && Utf16Length(b.message.value) > MaxMessage
    ensures r == None ==>
      && Filled(b.name) && Filled(b.message) && Utf16Length(b.message.value) <= MaxMessage
      && |b.message.value| <= MaxMessage
      && b.email.Some? && MatchesEmailPattern(b.email.value)
    ensures r == Some(InvalidEmail) ==> b.email.Some? && !MatchesEmailPattern(b.email.value)
  {
    if Truthy(b.honeypot) then Some(Spam)
    else if !(Filled(b.name) && Filled(b.email) && Filled(b.message)) then Some(MissingFields)
    else if Utf16Length(b.message.value) > MaxMessage then Some(MessageTooLong)
    else
      EmailOkIff(b.email.value);
      if !EmailOk(b.email.value) then Some(InvalidEmail)
      else None
  }

  /** A blank name, email or message is refused however much white space it holds. */
  lemma BlankFieldsRefused(b: ContactBody)
    requires !Truthy(b.honeypot)
    requires b.name.Some? && AllSpace(b.name.value)
    ensures CheckBody(b) == Some(MissingFields)
  {
    TrimEmptyIff(b.name.value);
  }

  /**
   * The cap counts UTF-16 units, not characters: 1001 emoji are 2002 units
   * and are refused although they are fewer than 2000 characters.
   */
  lemma EmojiMessageTooLong(b: ContactBody)
    requires !Truthy(b.honeypot) && Filled(b.name) && Filled(b.email)
    requires b.message.Some? && |b.message.value| == 1001
    requires forall k :: 0 <= k < |b.message.value| ==> b.message.value[k] == '\U{1F600}'
    ensures CheckBody(b) == Some(MessageTooLong)
  {
    EmojiText(b.message.value);
  }

  /** 1001 emoji: 2002 units, and not blank. */
  lemma EmojiText(m: string)
    requires |m| == 1001 && forall k :: 0 <= k < |m| ==> m[k] == '\U{1F600}'
    ensures Utf16Length(m) == 2002 && Filled(Some(m))
  {
    assert '\U{1F600}' as int == 0x1F600;
    Utf16LengthAstral(m);
    assert !IsSpace(m[0]);
    TrimEmptyIff(m);
  }

  function ErrorText(e: ContactError): string {
    match e
    case Spam => "Spam detected"
    case MissingFields => "Missing required fields"
    case MessageTooLong => "Message too long"
    case InvalidEmail => "Invalid email format"
  }

  datatype Response = Response(status: int, text: string)

  /** The answer once the limiter has decided. */
  function Respond(allowed: bool, body: Option<ContactBody>, mailFails: bool): (r: Response)
    ensures !allowed ==> r == Response(429, "Too many requests. Please try again later.")
    ensures allowed && body.None? ==> r == Response(500, "Failed to send message")
    ensures allowed && body.Some? && CheckBody(body.value).Some? ==>
      r == Response(400, ErrorText(CheckBody(body.value).value))
    ensures r.status == 200 <==> allowed && body.Some? && CheckBody(body.value).None? && !mailFails
  {
    if !allowed then Response(429, "Too many requests. Please try again later.")
    else if body.None? then Response(500, "Failed to send message")
    else if CheckBody(body.value).Some? then Response(400, ErrorText(CheckBody(body.value).value))
    else if mailFails then Response(500, "Failed to send message")
    else Response(200, "Message sent successfully")
  }

  /** The limiter's dictionary and the route handler that updates it. */
  class ContactLimiter {
    var entries: map<string, Entry>

    constructor ()
      ensures entries == map[]
    {
      entries := map[];
    }

    /** The limiter step for one request from `ip` (the `rateLimit[ip]` reads and updates). */
    method Admit(ip: string, now: int) returns (allowed: bool)
      modifies this
      ensures (entries, allowed) == Step(old(entries), ip, now, PlainObject)
    {
      match Lookup(entries, ip, PlainObject)
      case Absent =>
        entries := entries[ip := Entry(1, now)];
        allowed := true;
      case Inherited =>
        allowed := true;
      case Own(e) =>
        var elapsed := now - e.lastRequest;
        if elapsed > WindowMs {
          entries := entries[ip := Entry(1, now)];
          allowed := true;
        } else {
          entries := entries[ip := e.(count := e.count + 1)];
          allowed := entries[ip].count <= MaxRequests;
        }
    }

    /**
     * One request: the limiter runs first, on the client address, before
     * the body is read, so a request refused later still used up quota.
     * `body` is None when the body is not JSON; `mailFails` when either
     * mail cannot be sent (both end in the catch-all 500).
     */
    method Post(forwardedFor: Option<string>, now: int, body: Option<ContactBody>, mailFails: bool)
      returns (r: Response)
      modifies this
      ensures entries == Step(old(entries), ClientIp(forwardedFor), now, PlainObject).0
      ensures r == Respond(Step(old(entries), ClientIp(forwardedFor), now, PlainObject).1, body, mailFails)
    {
      var ip := ClientIp(forwardedFor);
      var allowed := Admit(ip, now);
      if !allowed {
        return Response(429, "Too many requests. Please try again later.");
      }
      if body.None? {
        return Response(500, "Failed to send message");
      }
      var problem := CheckBody(body.value);
      if problem.Some? {
        return Response(400, ErrorText(problem.value));
      }
      if mailFails {
        return Response(500, "Failed to send message");
      }
      r := Response(200, "Message sent successfully");
    }
  }
}
