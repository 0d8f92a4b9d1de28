# Studio website rules, modelled in Dafny

This project models the deterministic rules of a photography studio's web
site (a Next.js application backed by a hosted database, a payment gateway,
a media host and a mail service). It covers these parts:

- **Booking calendar.** The ten-slot day catalog, the month's occupancy map
  built from `paid` bookings, the day marker, the day grid and its click guard.
- **Booking and payment.** The booking form's guard chain and step sequence
  (insert a pending booking, create an order, verify, mark it paid, notify
  the admin). Also the order route (receipt truncation, rupees to paise) and
  the two signature-verifying routes.
- **Contact endpoint.** The per-address fixed-window rate limiter, which is a
  dictionary updated in place, then the ordered validation of the body and
  the e-mail pattern.
- **List reducers.**
  - The customer's realtime bookings list and the admin status updates.
  - Package and service CRUD and their search filters.
  - The notification store and the notification list.
  - The navbar bell, both as mounted (with no notifications provider) and
    wired to the store.
  - The admin dashboard aggregation: monthly counts, top five packages, the
    merged feed, the CSV export and the counters.
- **Small UI state machines.**
  - The lightboxes of the portfolio and the gallery.
  - The upload page: URL rewriting, the file list, table routing and the
    sequential upload loop.
  - Testimonial stars and the review dialog.

Every call to a hosted service becomes a parameter: its rows, its error flag
or its reply. The model never performs the call. Components whose state is
updated in place are classes with methods:

- the booking table;
- the booking flow;
- the contact limiter;
- the notification store;
- the navbar;
- the upload form;
- the review dialog.

Loops of the source are methods with loop invariants, proved against
specification functions:

- grouping bookings by date;
- the two dashboard tallies;
- the notification feed's push-and-sort;
- marking every unread notification;
- the upload loop.

Pure updaters are functions, and lemmas state what they promise.

Modules, one per source file plus shared ones:

- `Common`: JavaScript string, array and sort semantics.
- `BookingStore`: the `Bookings` table.
- `Calendar`, `BookingForm`, `RazorpayOrder`, `RazorpayVerify`,
  `VerifyPayment`, `ContactRoute`, `BookingsPage`, `AdminBookings`,
  `Dashboard`, `NotificationProvider`, `NotificationList`, `Navbar`,
  `PackagesPage`, `ServicesPage`, `UploadPage`, `Portfolio`, `Gallery`,
  `Testimonials` and `ReviewModal`.

## Model

| member | source | states |
|---|---|---|
| Common.Trim | app/api/contact/route.ts:12-13 | `trim` keeps one contiguous slice `s[i..j]` of its input, everything dropped before and after it is white space, and the slice has no white space at either end |
| Common.TrimPiece | app/api/contact/route.ts:12-13 | the trimmed string is the input without its leading and trailing white space: a slice between all-white-space ends, with non-space ends of its own |
| Common.TrimSlice | app/api/contact/route.ts:12-13 | dropping the leading then the trailing white space leaves a slice `s[i..j]` with only white space outside it |
| Common.PrefixOfSuffix | app/api/contact/route.ts:12-13 | a prefix of a suffix, each cut off at white space, is a slice of the input between white space |
| Common.TrimEmptyIff | app/api/contact/route.ts:45 | `s.trim()` is empty (falsy) exactly when `s` is white space only |
| Common.ToLower | app/admin/packages/page.tsx:141-146 | lower-casing maps every character and keeps the length |
| Common.ToUpper | app/bookings/page.tsx:193 | upper-casing maps every character and keeps the length |
| Common.IndexOfFrom | app/admin/upload/page.tsx:17-18 | `indexOf` returns the first occurrence at or after the start, or none when there is none |
| Common.EmptyTermMatches | app/admin/services/page.tsx:127-128 | the empty search term matches every text |
| Common.SplitFirstPart | app/api/contact/route.ts:13 | the first piece of `split(",")` holds no comma and is a prefix of the header |
| Common.SplitJoin | app/admin/dashboard/page.tsx:300-303 | splitting a join at a separator found in no part gives the parts back |
| Common.JoinAvoids | app/admin/dashboard/page.tsx:300-303 | a character absent from the parts and the separator is absent from the join |
| Common.Filter | app/bookings/page.tsx:100 | `filter` keeps exactly the elements satisfying the test, and no more of them than there were |
| Common.FilterIsSubsequence | app/bookings/page.tsx:100 | `filter` keeps the order of what it keeps |
| Common.FilterComplementCount | app/admin/packages/page.tsx:131 | every element goes to exactly one of `filter(p)` and `filter(!p)` |
| Common.MapWhere | app/admin/bookings/page.tsx:36-38 | the map-by-id updater changes the matching elements only and keeps length and positions |
| Common.MapWhereIdempotent | components/NotificationProvider.tsx:93-95 | applying an idempotent update by id twice equals applying it once |
| Common.SortDesc | app/admin/dashboard/NotificationList.tsx:74-79 | the sort is a permutation ordered by descending key |
| Common.InsertDescSorted | app/admin/dashboard/NotificationList.tsx:74-79 | inserting into a descending list keeps it descending |
| BookingStore.SetStatusOnlyTarget | app/api/verify-payment/route.ts:40-43 | `update({status}).eq("id", id)` changes only the status of the rows with that id; length and order are kept |
| BookingStore.SetStatusIdempotent | app/api/verify-payment/route.ts:40-43 | setting the same status twice leaves the table as after the first time |
| BookingStore.BookingTable.constructor | components/BookingForm.tsx:81-82 | the table starts with the given rows |
| BookingStore.BookingTable.Insert | components/BookingForm.tsx:81-100 | a successful insert appends the row and returns it; a failed one writes nothing and returns none |
| BookingStore.BookingTable.UpdateStatus | app/api/verify-payment/route.ts:40-51 | a successful update sets the status by id; a failed one leaves the table as it was |
| Calendar.Digits | components/Calendar.tsx:24 | the hour is printed as a non-empty run of decimal digits |
| Calendar.ParseDigitsRoundTrip | components/Calendar.tsx:24 | reading the printed hour back gives the hour |
| Calendar.SlotHourOfLabel | components/Calendar.tsx:24 | the label `${h}:00` stands for hour h |
| Calendar.TimeSlotsCatalog | components/Calendar.tsx:24 | exactly ten slots, "9:00" to "18:00", hour 9+i at position i, no duplicates |
| Calendar.GroupByDate | components/Calendar.tsx:48-52 | the `forEach` loop builds exactly the date-to-times map of the rows |
| Calendar.GroupedSnoc | components/Calendar.tsx:48-52 | one more row appends its time to its date's list, starting the list when the date is new |
| Calendar.FetchBooked | components/Calendar.tsx:27-56 | a query error keeps the previous map; otherwise the map is the grouping of the paid bookings in the month window |
| Calendar.GroupedHasEveryRow | components/Calendar.tsx:48-52 | every fetched row's time is listed under its date |
| Calendar.GroupedKeys | components/Calendar.tsx:48-52 | the keys are exactly the rows' dates, and no list is empty |
| Calendar.DistinctDatesSpec | components/Calendar.tsx:48-52 | the distinct dates are the rows' dates, each listed once |
| Calendar.TimesTotalOfDistinct | components/Calendar.tsx:48-52 | the lists of all dates together hold one time per row |
| Calendar.GroupedTotal | components/Calendar.tsx:48-52 | the total number of times in the map equals the number of fetched rows |
| Calendar.TimesOnMember | components/Calendar.tsx:48-52 | a row's time is among the times of its date |
| Calendar.TimesOnRow | components/Calendar.tsx:48-52 | every listed time comes from a row with that date and time |
| Calendar.BookedSlotIff | components/Calendar.tsx:29-41 | a time is booked on a day iff some row of the table is `paid`, in the month window, on that day at that time |
| Calendar.FilteredSlotIff | components/Calendar.tsx:36-41 | a (day, time) pair occurs among the kept rows iff it occurs in a row of the table that passes the query's test |
| Calendar.KeptRowInTable | components/Calendar.tsx:36-41 | a row the query keeps comes from the table and passes the test |
| Calendar.PassingRowKept | components/Calendar.tsx:36-41 | a row of the table that passes the test is kept |
| Calendar.GroupedSlotIff | components/Calendar.tsx:58-61 | `bookedDates[day] \|\| []` holds a time iff some row holds that day and time |
| Calendar.MarkerIff | components/Calendar.tsx:63-75 | a day gets the marker iff at least one fetched row lies on it |
| Calendar.DayScheduleComplete | components/Calendar.tsx:105-116 | the grid has the ten catalog slots in order; a slot is Booked iff booked, else Selected iff it is the time, else Available |
| Calendar.ClickNeverSelectsBooked | components/Calendar.tsx:117 | a click on a booked slot keeps the time; a click on a free slot selects it; from a free selection the new selection is free |
| Calendar.ClicksKeepSelectionFree | components/Calendar.tsx:117 | after any series of clicks a selection that started free is still free, and is the start or a clicked slot |
| Calendar.TypedBookedTimeKept | components/Calendar.tsx:89-99 | a booked time typed into the field is kept (a grid click on it would not be) and the warning shows |
| Calendar.DateChangeKeepsTime | components/Calendar.tsx:58-61 | a day change keeps the time, and the warning then shows iff the new day's list holds it |
| Calendar.WarningIffNoSelectedSlot | components/Calendar.tsx:95-116 | for a catalog time, the warning shows iff no grid slot is drawn as selected |
| BookingForm.Validate | components/BookingForm.tsx:71-75 | the first failing guard in the order login, package, contact fields, location is reported; none is reported iff all hold |
| BookingForm.DatePartOfIso | components/BookingForm.tsx:86 | the stored date is the part of the ISO string before "T" |
| BookingForm.FindPackage | components/BookingForm.tsx:104 | `find` returns a package with the id, or none iff no package has it |
| BookingForm.FindPackageFirst | components/BookingForm.tsx:104 | the package found is the first one with the id |
| BookingForm.OrderAmountSpec | components/BookingForm.tsx:111 | the amount is the first matching package's price, or 500 when there is none or the price is 0; it is never 0 |
| BookingForm.DefaultTimeIsASlot | components/BookingForm.tsx:31 | the initial time "10:00" is a slot of the calendar |
| BookingForm.DefaultPackage | components/BookingForm.tsx:47 | after the fetch the first package is selected when there is one; otherwise the selection stays |
| BookingForm.DefaultPackageAmount | components/BookingForm.tsx:47 | with the default selection the order asks for the first package's price (500 when it is 0) |
| BookingForm.PendingBookingFields | components/BookingForm.tsx:81-97 | the inserted booking is `pending`, at the selected time, for the user and package, on the ISO date part |
| BookingForm.NotifyMessage | components/BookingForm.tsx:152 | the message is the fixed opening, then the package name at a fixed position, then " by user ", then the user id at the end |
| BookingForm.NotifyMessageInjective | components/BookingForm.tsx:152 | for package names of one length the message determines both the package name and the user id |
| BookingForm.BookingFlow.constructor | components/BookingForm.tsx:23 | the flow starts idle, with no request sent |
| BookingForm.BookingFlow.HandleBooking | components/BookingForm.tsx:70-173 | a failing guard changes nothing; a failed insert requests no order; otherwise one pending row is appended and one order is requested for the package's amount; an unreachable order route or a missing checkout script leaves that row pending with no checkout; otherwise the checkout opens with whatever order id came back (none after a failed order), described and notified with the selected package's name; `loading` ends false |
| BookingForm.BookingFlow.OnPaymentResponse | components/BookingForm.tsx:124-161 | the verify request is always sent; only a reply with `success` marks the booking paid (when the update succeeds) and notifies the admin with the checkout's package name and user; the redirect happens only when the notify fetch does not throw, otherwise the paid booking ends with an error |
| BookingForm.SubmitThenPayMarksPaid | components/BookingForm.tsx:81-97 | a submitted pending booking whose payment is verified ends `paid`, with earlier rows untouched |
| BookingForm.ReplyOf | components/BookingForm.tsx:126-138 | `verifyData.success` is true iff the verify route answered `{ success: true }` |
| BookingForm.PaidIffRouteVerifies | components/BookingForm.tsx:126-145 | with the checkout's ids, the handler sees success iff the signature matches, and then the new booking ends `paid` with earlier rows untouched |
| RazorpayOrder.MakeReceipt | app/api/razorpay/order/route.ts:3-6 | the receipt is the first min(40, length) UTF-16 units of `receipt_<id>`, and all of it when it fits in 40 |
| RazorpayOrder.PrefixUnits | app/api/razorpay/order/route.ts:4 | "receipt_" is eight units, its own ASCII characters |
| RazorpayOrder.ReceiptShape | app/api/razorpay/order/route.ts:3-6 | every receipt starts with the units of "receipt_", and ids of up to 32 units are kept whole |
| RazorpayOrder.ReceiptOfBasicId | app/api/razorpay/order/route.ts:3-6 | for an id without characters beyond U+FFFF (the form sends a UUID) the receipt is `receipt_<id>` cut to 40 characters |
| RazorpayOrder.ReceiptSplitsPair | app/api/razorpay/order/route.ts:5 | the cut counts units, so it can leave a lone high surrogate at the end of the receipt |
| RazorpayOrder.AstralAfterBasic | app/api/razorpay/order/route.ts:5 | a character beyond U+FFFF after plain text adds two units, the first a high surrogate |
| RazorpayOrder.ReceiptCollision | app/api/razorpay/order/route.ts:5 | ids whose encodings agree on their first 32 units get the same receipt |
| RazorpayOrder.Post | app/api/razorpay/order/route.ts:8-58 | the gateway is called iff the body parses and both fields are truthy; the request is in paise and INR; the reply passes the gateway's data, status or error through |
| RazorpayOrder.NegativeAmountPassesValidation | app/api/razorpay/order/route.ts:12-17 | a negative amount passes validation and reaches the gateway negative |
| RazorpayVerify.SignedMessageInjective | app/api/razorpay/verify/route.ts:36 | with no '\|' in the order id, the signed message determines the order and payment ids |
| RazorpayVerify.Verify | app/api/razorpay/verify/route.ts:5-58 | missing fields give 400; success iff all fields are present and the signature matches; a mismatch gives 400 "Invalid signature" |
| RazorpayVerify.SignatureNotBoundToBooking | app/api/razorpay/verify/route.ts:33-53 | the verdict does not depend on which booking id accompanies a valid triple |
| VerifyPayment.Respond | app/api/verify-payment/route.ts:5-61 | the four failure responses with their codes; `success` iff the signature matched and the update succeeded, iff the status is 200 |
| VerifyPayment.VerifyPayment | app/api/verify-payment/route.ts:40-53 | the route's response and the table after it |
| VerifyPayment.PaidOnlyAfterSignature | app/api/verify-payment/route.ts:14-43 | nothing is written before the signature gate; after it only the status of rows with the booking id changes, to `paid` |
| VerifyPayment.SuccessMeansPaid | app/api/verify-payment/route.ts:40-53 | after a success every row with the booking id is `paid` |
| VerifyPayment.ReplayIdempotent | app/api/verify-payment/route.ts:40-43 | replaying a verified request succeeds again and leaves the table as after the first |
| ContactRoute.ClientIp | app/api/contact/route.ts:12-13 | the address is never empty; it is "unknown" without a header or when the first entry is blank, and otherwise exactly the trimmed first entry, comma-free with no white space at either end |
| ContactRoute.BlankFirstEntryIsUnknown | app/api/contact/route.ts:12-13 | `" ,1.2.3.4"` gives "unknown": the fallback applies to the whole chain |
| ContactRoute.ClientIpOfList | app/api/contact/route.ts:12-13 | for `a, b, …` the address is `a` trimmed, or "unknown" when `a` is blank |
| ContactRoute.Replay | app/api/contact/route.ts:20-35 | after some requests the address has an entry; with none, nothing changes |
| ContactRoute.ReplayWithinWindow | app/api/contact/route.ts:26-33 | inside a window the count grows by one per request, the window start stays, and at most `5 - count` pass |
| ContactRoute.AtMostFivePerWindow | app/api/contact/route.ts:26-33 | at most five requests pass within one window of an address's own entry |
| ContactRoute.Lookup | app/api/contact/route.ts:7-20 | `rateLimit[ip]` finds the own entry iff there is one, and an inherited member iff the dictionary is a plain object and the address is one of `Object.prototype`'s names |
| ContactRoute.ReplayAtOwn | app/api/contact/route.ts:20-35 | for an address that is not an inherited name, the dictionary lets through exactly what the per-address step does |
| ContactRoute.InheritedNameNeverLimited | app/api/contact/route.ts:7-35 | as written, an address such as "constructor" or "__proto__" has every request pass and never gets an entry |
| ContactRoute.SixFromConstructorAllPass | app/api/contact/route.ts:7-35 | six requests in one instant from "constructor" all pass |
| ContactRoute.AtMostFivePerWindowAt | app/api/contact/route.ts:20-35 | at most five requests per window pass for every address that is not an inherited name, and for every address once lookups see own keys only |
| ContactRoute.QuietHourResets | app/api/contact/route.ts:23-25 | after more than an hour the entry restarts at count 1 and the request passes |
| ContactRoute.RejectedRequestsCount | app/api/contact/route.ts:26-33 | a rejected request still raises the count |
| ContactRoute.EmailOkSound | app/api/contact/route.ts:56-57 | what the route's check accepts matches the pattern |
| ContactRoute.EmailOkComplete | app/api/contact/route.ts:56-57 | what matches the pattern is accepted by the check |
| ContactRoute.FirstAt | app/api/contact/route.ts:56 | an '@' with no '@' before it is the one the split finds |
| ContactRoute.DotInDomain | app/api/contact/route.ts:56 | a '.' strictly inside the domain is found by the domain test |
| ContactRoute.EmailOkIff | app/api/contact/route.ts:56-62 | the check accepts exactly the strings matching `^[^\s@]+@[^\s@]+\.[^\s@]+$` |
| Common.CharUnits | app/api/contact/route.ts:52 | a character up to U+FFFF is one unit, itself; a character beyond is a high then a low surrogate that decode back to it |
| Common.Utf16 | app/api/contact/route.ts:52 | a JavaScript string holds between one and two UTF-16 units per character |
| Common.Utf16Concat | app/api/razorpay/order/route.ts:4 | the units of `${a}${b}` are those of a followed by those of b |
| Common.Utf16LengthBasic | app/api/contact/route.ts:52 | a text of characters up to U+FFFF has one unit per character, the character itself |
| Common.Utf16LengthAstral | app/api/contact/route.ts:52 | a text of characters beyond U+FFFF has two units per character |
| ContactRoute.CheckBody | app/api/contact/route.ts:40-62 | honeypot, then blank fields, then a length over 2000 UTF-16 units, then the e-mail pattern; each reported iff it is the first to fail |
| ContactRoute.EmojiMessageTooLong | app/api/contact/route.ts:52-54 | 1001 emoji are 2002 units and are refused as too long |
| ContactRoute.BlankFieldsRefused | app/api/contact/route.ts:45-50 | a blank name, e-mail or message is refused, however much white space it holds |
| ContactRoute.Respond | app/api/contact/route.ts:29-32 | 429 when limited, 500 for an unparsable body or a mail failure, 400 with the check's message, 200 iff all passed |
| ContactRoute.ContactLimiter.constructor | app/api/contact/route.ts:7 | the dictionary starts empty |
| ContactRoute.ContactLimiter.Admit | app/api/contact/route.ts:7-35 | the dictionary, a plain object, is updated in place as the limiter step says, inherited names included, and the verdict is that step's |
| ContactRoute.ContactLimiter.Post | app/api/contact/route.ts:9-119 | the limiter runs on the client address before the body is read, and the response follows its verdict |
| BookingsPage.InitialListSpec | app/bookings/page.tsx:43-53 | the fetched list holds exactly the user's bookings, each as often as in the table, newest first |
| BookingsPage.OnInsert | app/bookings/page.tsx:71-74 | INSERT puts the new booking in front of the unchanged list |
| BookingsPage.OnUpdateSpec | app/bookings/page.tsx:84-87 | UPDATE replaces every element with the id and keeps the rest, length and order; replaying it changes nothing |
| BookingsPage.OnDeleteSpec | app/bookings/page.tsx:99-100 | DELETE removes exactly the elements with the id and keeps the rest in order |
| BookingsPage.InsertThenDelete | app/bookings/page.tsx:71-100 | deleting a just-inserted booking gives what the plain delete gives |
| BookingsPage.StatusBadge | app/bookings/page.tsx:185-193 | green iff "paid", yellow iff "pending", red otherwise; the text is as long as the status |
| BookingsPage.BadgeLabelUpper | app/bookings/page.tsx:193 | the badge text has no lower-case letter and upper-casing it again changes nothing |
| AdminBookings.UpdateStatusSpec | app/admin/bookings/page.tsx:27-40 | on an error the list is unchanged; otherwise only the status of the booking with the id changes, whatever it was |
| AdminBookings.UpdateStatusThrough | app/admin/bookings/page.tsx:27-40 | the local list and the table agree after the update when they agreed before |
| AdminBookings.ButtonStatus | app/admin/bookings/page.tsx:64-75 | Accept sends "accepted" and Reject sends "rejected"; both are admin decisions |
| AdminBookings.AdminOnlySetsDecisions | app/admin/bookings/page.tsx:27-75 | after a press that the store accepts, every row with the id carries the button's decision and every other row is unchanged |
| Dashboard.WindowMonthsDistinct | app/admin/dashboard/page.tsx:158-162 | the six window months are distinct |
| Dashboard.ZeroMonths | app/admin/dashboard/page.tsx:156-162 | the first loop creates six keys, oldest first, each 0 |
| Dashboard.CountMonths | app/admin/dashboard/page.tsx:163-169 | the second loop counts, for each key, the accepted bookings of that month; other months are ignored |
| Dashboard.CountMonthsStep | app/admin/dashboard/page.tsx:164-167 | one more booking adds one to its month iff it is accepted and the month is a key |
| Dashboard.MonthlyBookings | app/admin/dashboard/page.tsx:155-172 | six entries in window order, each the number of accepted bookings of its month |
| Dashboard.SumCountsBounded | app/admin/dashboard/page.tsx:163-169 | over distinct months the counts add up to at most the number of accepted bookings |
| Dashboard.TotalIsSumCounts | app/admin/dashboard/page.tsx:170-172 | the chart's total is the sum of the per-month counts |
| Dashboard.MonthlyChartSpec | app/admin/dashboard/page.tsx:155-172 | six distinct months ending with the current one, whose counts total at most the accepted bookings |
| Dashboard.LabelsSpec | app/admin/dashboard/page.tsx:175-181 | the package labels are distinct, and a label is listed iff some accepted booking carries it |
| Dashboard.TallyPackages | app/admin/dashboard/page.tsx:175-183 | the tally loop yields each label, in first-seen order, with its number of accepted bookings |
| Dashboard.TallyAdvance | app/admin/dashboard/page.tsx:176-180 | one loop step keeps the key order and the counts equal to those of the rows seen so far |
| Dashboard.CountOne | app/admin/dashboard/page.tsx:177-180 | one increment: a new label is appended with count 1, a known one goes up by one |
| Dashboard.TopFiveSpec | app/admin/dashboard/page.tsx:182-185 | at most five entries, sorted by count descending, a sub-multiset of the tally; every kept entry counts at least as much as every entry left out |
| Dashboard.GenerateNotifications | app/admin/dashboard/page.tsx:193-224 | the feed is a permutation of the user items and the request items, sorted newest first |
| Dashboard.FeedSpec | app/admin/dashboard/page.tsx:201-222 | one item per user and one per request; when every user signed up before now, all request items come before all user items |
| Dashboard.ItemKindTime | app/admin/dashboard/page.tsx:210-216 | a request item carries the generation time, a user item its user's time |
| Dashboard.HandleUpdateStatusSpec | app/admin/dashboard/page.tsx:236-242 | a success removes every request with the id, keeps the others in order, and lowers the counter by exactly one; an error changes nothing |
| Dashboard.PendingCounterUnclamped | app/admin/dashboard/page.tsx:241 | the counter can go to -1 |
| Dashboard.Export | app/admin/dashboard/page.tsx:298-303 | no crash; "no data" iff there are no rows; otherwise the CSV as written |
| Dashboard.ExportRoundTrip | app/admin/dashboard/page.tsx:300-303 | with plain cells the CSV splits back into the first row's keys and every row's values |
| Dashboard.CsvLines | app/admin/dashboard/page.tsx:300-303 | the text splits at line breaks into the header and one line per row |
| Dashboard.LinesRoundTrip | app/admin/dashboard/page.tsx:301-302 | the header and row lines split at commas give back keys and values |
| Dashboard.RowRoundTrip | app/admin/dashboard/page.tsx:301-302 | one row's keys line and values line split back into the keys and the values |
| Dashboard.SendNotification | app/admin/dashboard/page.tsx:316-321 | a blank message is refused and nothing changes; otherwise the message clears and the modal closes |
| NotificationProvider.MarkReadWhereId | components/NotificationProvider.tsx:93-95 | only notifications with the id become read; length and order are kept |
| NotificationProvider.PrependCount | components/NotificationProvider.tsx:79-80 | prepending adds one to the unread count iff the notification is unread |
| NotificationProvider.MarkReadCount | components/NotificationProvider.tsx:93-95 | marking read lowers the unread count by the unread notifications with the id |
| NotificationProvider.MarkReadIdempotent | components/NotificationProvider.tsx:93-95 | marking twice equals marking once, and nothing with the id stays unread |
| NotificationProvider.FromPayload | components/NotificationProvider.tsx:70-77 | `is_read` is true iff the payload says true, so absent means unread |
| NotificationProvider.InsertKeepsCounterIff | components/NotificationProvider.tsx:75-80 | the counter's increment matches the list iff the inserted notification is unread |
| NotificationProvider.MarkKeepsCounterIff | components/NotificationProvider.tsx:91-97 | the clamped decrement agrees with the list iff exactly one unread notification had the id, or the counter was already 0 |
| NotificationProvider.NotificationStore.constructor | components/NotificationProvider.tsx:40-41 | empty list, counter 0 |
| NotificationProvider.NotificationStore.Load | components/NotificationProvider.tsx:44-55 | an error keeps the state; otherwise the list is the rows and the counter their unread count |
| NotificationProvider.NotificationStore.OnInsert | components/NotificationProvider.tsx:67-81 | a payload is prepended and the counter rises by one; the counter stays consistent iff the payload is unread |
| NotificationProvider.NotificationStore.MarkAsRead | components/NotificationProvider.tsx:91-97 | the list is marked by id and the counter becomes `max(prev - 1, 0)` |
| NotificationList.Mount | app/admin/dashboard/NotificationList.tsx:24-72 | the list mounts iff the prop is passed, starting as given with nothing selected; without it the first render throws |
| NotificationList.NavbarPanelNeverMounts | components/Navbar.tsx:140 | the navbar renders the list without the prop, so it never mounts |
| NotificationList.MountDefaulted | app/admin/dashboard/NotificationList.tsx:20-25 | with a default of `[]` the list always mounts: empty without the prop, as given with it |
| NotificationList.OnInsert | app/admin/dashboard/NotificationList.tsx:40-43 | the row is prepended, and the derived unread count rises iff it is unread |
| NotificationList.BadgeIff | app/admin/dashboard/NotificationList.tsx:72-95 | the badge shows iff some notification is unread |
| NotificationList.SortedView | app/admin/dashboard/NotificationList.tsx:74-79 | the sorted view is a permutation of the list, newest first |
| NotificationList.SortedViewSpec | app/admin/dashboard/NotificationList.tsx:74-104 | the view is empty iff the list is, and holds the same rows |
| NotificationList.Click | app/admin/dashboard/NotificationList.tsx:114-117 | a click always selects; it marks by id only an unread notification |
| NotificationList.ClickClearsId | app/admin/dashboard/NotificationList.tsx:65-72 | after clicking an unread item nothing with its id is unread, and the count falls by that many |
| Navbar.AllRead | components/Navbar.tsx:92-94 | every row read, nothing else changed |
| Navbar.AllReadSpec | components/Navbar.tsx:92-94 | after the bell click nothing is unread and already-read rows are untouched |
| Navbar.UnreadIdsSpec | components/Navbar.tsx:92-94 | the ids marked are exactly those of the unread rows |
| Navbar.MarkedPrefixStep | components/Navbar.tsx:92-94 | one loop step marks an unread row's id and skips a read row |
| Navbar.MarkedPrefixAll | components/Navbar.tsx:92-94 | once every row has been visited, every row is read |
| Navbar.UnreadIdsSnoc | components/Navbar.tsx:92-94 | one more row adds its id iff it is unread |
| Navbar.NavbarState.constructor | components/Navbar.tsx:22-26 | the role is the cookie or none when it is absent or empty; every panel closed |
| Navbar.NavbarState.BellDot | components/Navbar.tsx:127-134 | the red dot shows iff the user is admin and some notification is unread |
| Navbar.NavbarState.PanelVisible | components/Navbar.tsx:292 | the panel shows only for an admin, iff toggled on |
| Navbar.NavbarState.Panel | components/Navbar.tsx:126-141 | the panel area is empty iff the panel is not visible, and once visible its list render has thrown |
| Navbar.NavbarState.HandleShowNotifications | components/Navbar.tsx:86-95 | toggles the panel, closes the others, marks exactly the unread rows, and keeps the counter consistent |
| Navbar.NavbarState.MarkAllUnread | components/Navbar.tsx:92-94 | the loop marks every unread row once, and the counter goes down by the unread count, clamped at 0 |
| Navbar.NavbarState.CounterStep | components/NotificationProvider.tsx:96 | clamping after each decrement equals clamping once after all of them |
| Navbar.NavbarState.HandleShowNotificationsWithoutProvider | app/layout.tsx:26-33 | with no provider above the navbar, a bell click toggles the panel, marks nothing, keeps the default store empty and the dot hidden, so the same holds after any number of clicks |
| Navbar.NoDotWithoutProvider | components/NotificationProvider.tsx:28-33 | with the context's default store, which holds no row, there is no dot and nothing to mark |
| Navbar.NavbarState.ToggleProfile | components/Navbar.tsx:160-164 | toggles the dropdown and closes the notifications panel and the menu |
| PackagesPage.FilteredPackagesSpec | app/admin/packages/page.tsx:139-148 | the filtered list keeps order, and a package is in it iff it matches the search and both price bounds |
| PackagesPage.NoFilterShowsAll | app/admin/packages/page.tsx:141-146 | no term and no bounds show every package |
| PackagesPage.Gradient | app/admin/packages/page.tsx:150-157 | the card gradient is one of the six, by position |
| PackagesPage.GradientCycle | app/admin/packages/page.tsx:219 | gradients repeat every six cards, and six neighbouring cards differ |
| PackagesPage.Load | app/admin/packages/page.tsx:51-62 | an error keeps the list; otherwise it becomes the rows |
| PackagesPage.Save | app/admin/packages/page.tsx:69-111 | an edit rewrites the fields by id; an add prepends the returned rows; an error keeps the list; the modal always resets |
| PackagesPage.DeleteConfirmed | app/admin/packages/page.tsx:119-136 | without a target nothing happens; a success removes by id, an error keeps the list; the target always clears |
| PackagesPage.RemoveIdSpec | app/admin/packages/page.tsx:131 | the delete removes exactly the packages with the id, keeping the others in order |
| PackagesPage.EditKeepsIds | app/admin/packages/page.tsx:85-91 | an edit keeps every id and every other package |
| ServicesPage.FilteredServicesSpec | app/admin/services/page.tsx:123-131 | the filtered list keeps order, and a service is in it iff its title or description contains the term, ignoring case |
| ServicesPage.EmptySearchShowsAll | app/admin/services/page.tsx:127-128 | an empty term shows every service |
| ServicesPage.Load | app/admin/services/page.tsx:26-38 | an error keeps the list; otherwise it becomes the rows |
| ServicesPage.Save | app/admin/services/page.tsx:64-103 | an edit rewrites title and description by id; an add prepends; an error keeps the list; the modal always resets |
| ServicesPage.DeleteConfirmed | app/admin/services/page.tsx:107-121 | without a target nothing happens; a success removes by id, an error keeps the list; the target always clears |
| ServicesPage.RemoveIdSpec | app/admin/services/page.tsx:117 | the delete removes exactly the services with the id, keeping the others in order |
| ServicesPage.RemoveAbsentId | app/admin/services/page.tsx:117 | deleting an id that is not listed changes nothing |
| UploadPage.OptimizeUrl | app/admin/upload/page.tsx:17-18 | the first "/upload/" gains the transformation; without one the URL is unchanged |
| UploadPage.OptimizeUrlNotIdempotent | app/admin/upload/page.tsx:17-18 | rewriting twice inserts the transformation twice |
| UploadPage.OptimizeUrlKeepsPrefix | app/admin/upload/page.tsx:17-18 | everything before the first "/upload/" is kept |
| UploadPage.HandleFiles | app/admin/upload/page.tsx:80-83 | a null selection changes nothing; otherwise the picked files follow the current ones |
| UploadPage.RemoveFileSpec | app/admin/upload/page.tsx:90-92 | removing a position drops exactly that file; an out-of-range position drops nothing |
| UploadPage.Endpoint | app/admin/upload/page.tsx:117-118 | "video/upload" iff the MIME type starts with "video/", else "image/upload" |
| UploadPage.Route | app/admin/upload/page.tsx:127-146 | a video goes to "videos"; else gallery to "photos" with `is_active`; else "service_images" |
| UploadPage.Completed | app/admin/upload/page.tsx:108-150 | the files before the first failure all went through, and the next one failed |
| UploadPage.CompletedIsFirstFailure | app/admin/upload/page.tsx:108-150 | `Completed` is the position of the first failure, or the length when there is none |
| UploadPage.Inserted | app/admin/upload/page.tsx:127-146 | one routed row per completed file |
| UploadPage.UploadForm.constructor | app/admin/upload/page.tsx:21-31 | gallery mode, empty title, files and service, nothing written |
| UploadPage.UploadForm.HandleUpload | app/admin/upload/page.tsx:95-162 | refused input changes nothing; otherwise the completed files' rows are written in order, and the title and files clear iff all went through |
| UploadPage.ItemTable | app/admin/upload/page.tsx:172-227 | edits and deletes go to "videos" for a video, else to the mode's table |
| UploadPage.EditPatch | app/admin/upload/page.tsx:184-191 | the edit sends the title and/or service title the item's table has, never neither |
| UploadPage.OpenModalFields | app/admin/upload/page.tsx:164-170 | the edit fields start as the item's title and service title, or "" |
| UploadPage.DisplayedImages | app/admin/upload/page.tsx:229-241 | images show only in the "all" and "images" views, each with its rewritten URL |
| UploadPage.DisplayedVideos | app/admin/upload/page.tsx:242-245 | videos show only in the "all" and "videos" views, unchanged |
| UploadPage.ImagesTable | app/admin/upload/page.tsx:53 | images come from "photos" in gallery mode, else from "service_images" |
| UploadPage.ServicesLoaded | app/admin/upload/page.tsx:70-77 | the titles are loaded and the first one is selected when there is one |
| Portfolio.FilteredItemsSpec | components/Portfolio.tsx:41-44 | "All" shows every item; another category shows, in order, exactly its items |
| Portfolio.SelectCard | components/Portfolio.tsx:139-142 | a card click opens the item at index 0 |
| Portfolio.NavigationInverse | components/Portfolio.tsx:82-96 | inside a gallery next and prev stay in range, undo each other, and next is `(i + 1) % len` |
| Portfolio.NextImage | components/Portfolio.tsx:82-88 | without a gallery nothing moves; otherwise the index advances with wrap-around |
| Portfolio.PrevImage | components/Portfolio.tsx:90-96 | an empty or missing gallery does not move; otherwise as written; the index never goes negative |
| Portfolio.PrevOnEmptyGalleryGoesNegative | components/Portfolio.tsx:90-96 | the code as written moves to -1 on an empty gallery |
| Portfolio.MovesKeepIndexInRange | components/Portfolio.tsx:82-105 | as written the moves stay in range and undo each other in a non-empty gallery; the index reaches -1 exactly by stepping back from 0 in an empty gallery array |
| Portfolio.CorrectedMovesKeepIndexInRange | components/Portfolio.tsx:82-105 | with the corrected step back the index never goes negative, and the moves undo each other in range |
| Portfolio.KeyDown | components/Portfolio.tsx:100-105 | arrows move (the left one through the step back as written) and Escape closes only while an item is open; other keys do nothing |
| Portfolio.KeyDownCorrected | components/Portfolio.tsx:100-105 | with the corrected step back no key makes the index negative; it agrees with the handler as written except on the left arrow in an empty gallery |
| Portfolio.MainImage | components/Portfolio.tsx:182-186 | the gallery picture at the index, or the card image without a gallery |
| Gallery.Normalize | components/Gallery.tsx:105-112 | `src = original \|\| image_url`, `title = title \|\| description \|\| "Photo"`, never empty |
| Gallery.NormalizeAll | components/Gallery.tsx:104-113 | one picture per record, in order |
| Gallery.AllImagesSpec | components/Gallery.tsx:104-113 | the photos, then the plain images, one each, every caption non-empty |
| Gallery.Open | components/Gallery.tsx:31-33 | the lightbox opens, on a valid index iff the clicked one is inside the list, and next and previous undo each other there |
| Gallery.Close | components/Gallery.tsx:36-38 | the lightbox closes, and next and prev then do nothing |
| Gallery.Next | components/Gallery.tsx:41-50 | `(i + 1) % n`, in range; nothing while closed |
| Gallery.Prev | components/Gallery.tsx:52-61 | `(i - 1 + n) % n`, in range; nothing while closed |
| Gallery.NextPrevInverse | components/Gallery.tsx:41-61 | next and prev undo each other |
| Testimonials.Stars | components/Testimonials.tsx:129-138 | `rating` filled stars, then `5 - rating` empty ones |
| Testimonials.FiveStars | components/Testimonials.tsx:129-138 | a rating from 1 to 5 gives five stars, the first `rating` filled |
| Testimonials.ZeroRatingRendersZero | components/Testimonials.tsx:119 | the code as written prints "0" for a rating of 0 |
| Testimonials.RatingRowFor | components/Testimonials.tsx:119-138 | no row for an absent or 0 rating, never stray text; otherwise as written |
| Testimonials.RenderCard | components/Testimonials.tsx:103-138 | the photo appears iff present; the name and feedback are shown; the rating row shows stray text iff the rating is 0, and is the intended row otherwise |
| Testimonials.RenderCardCorrected | components/Testimonials.tsx:103-138 | with the corrected rating row the card never shows stray text, and equals the card as written for every rating but 0 |
| Testimonials.RenderAll | components/Testimonials.tsx:103 | one card per testimonial, in order |
| ReviewModal.StarRow | components/ReviewModal.tsx:130-141 | star i is lit iff `(hoverRating ?? rating) > i` |
| ReviewModal.StarRowIsPrefix | components/ReviewModal.tsx:130-141 | the lit stars form a prefix as long as the shown rating |
| ReviewModal.AuthorName | components/ReviewModal.tsx:62 | `full_name` when truthy, else the e-mail |
| ReviewModal.ReviewForm.constructor | components/ReviewModal.tsx:16-21 | empty feedback, rating 5, no hover, not loading, closing or submitted |
| ReviewModal.ReviewForm.ClickStar | components/ReviewModal.tsx:136 | a click on star i chooses rating i + 1 |
| ReviewModal.ReviewForm.Hover | components/ReviewModal.tsx:134-135 | entering star i previews i + 1; leaving ends the preview |
| ReviewModal.ReviewForm.HandleSubmit | components/ReviewModal.tsx:49-79 | without a user nothing changes; a failed insert keeps the form; a success stores the review and resets feedback and rating |
| ReviewModal.ReviewForm.BeginClose | components/ReviewModal.tsx:40-41 | closing starts the fade and the dialog stays on screen |
| ReviewModal.ReviewForm.FinishClose | components/ReviewModal.tsx:42-47 | after the fade `submitted` resets and the parent is told to close; a closed dialog renders nothing |
| ReviewModal.ReviewForm.PressEscape | components/ReviewModal.tsx:32-38 | Escape starts the close only while open |

## Left out

- Hosted services are not modelled. This covers the database queries, inserts and updates, the payment gateway's HTTP API, the media host and the mail service. Each answer is a parameter: rows, an error flag or a reply.
- HMAC-SHA256 (RFC 2104 over FIPS 180-4) is a function-valued parameter. Only the equality gate on its output is modelled.
- Realtime subscriptions, timers, animations and polling are left out. Only the state update each event performs is modelled.
- Dates are abstracted.
  - Calendar dates are "YYYY-MM-DD" strings compared as text.
  - Dashboard months are month numbers 0 to 11, with no year, as the source's short month names are.
  - Timestamps are integers.
- Prices and amounts are whole numbers. Floating-point prices and coordinates are not modelled.
- Case mapping is ASCII only. Unicode case folding is not modelled.
- Object key order is an explicit sequence. `Object.entries` and `Object.keys` are modelled by the sequence in which keys were first inserted. JavaScript lists integer-like keys (a package named "2024", say) first, in ascending order; that ordering is not modelled, so ties in the top five can come out in a different order for such names.
- Dashboard.GenerateNotifications: stamps every request item with one clock reading `now`, while the source reads the clock once per item; readings a millisecond apart could order request items differently among themselves.
- ContactRoute.ContactLimiter.Admit: the NaN that `count++` writes onto an inherited member (for "__proto__", onto `Object.prototype` itself) is not modelled; it changes no entry of the dictionary and no verdict of the limiter.
- Dashboard.TallyPackages: counts in a `Map`-like dictionary, so a package named after an `Object.prototype` member is counted like any other. In the source, `{}` yields the inherited member for "constructor", "toString" or "hasOwnProperty", so the count becomes a string concatenation and the sort compares NaN; for "__proto__" the write is dropped and the package is not listed.
- Calendar.ClicksKeepSelectionFree: holds for grid clicks only. The time field accepts any typed time and a day change keeps the time, so a booked time can be selected; the source then shows only a warning (Calendar.TypedBookedTimeKept, Calendar.DateChangeKeepsTime).
- Common.SortDesc: proves a sorted permutation, not the stability of `Array.prototype.sort`.
- Dashboard.ExportRoundTrip: holds only for cells without commas or line breaks, because the export does no quoting.
- Gallery.Next, Gallery.Prev: require an index inside the list. With an empty list the source computes NaN; the lightbox can only be opened on a picture, so that case is excluded.
- Contact: the e-mail bodies and their HTML are not modelled; only the response codes are.
- Navigation, toasts, redirects and the parent's `onClose` are flags or outcomes, not calls.

## Findings

| source | as written | input that shows it | evidently intended | confidence | as-written member | corrected member |
|---|---|---|---|---|---|---|
| app/admin/dashboard/page.tsx:299-303 | `if (!data)` lets an empty array through, and `Object.keys(data[0])` then throws | the bookings table is empty, so the query returns `[]` | report "No data to export" | not executed | Dashboard.ExportEmptyTableCrashes | Dashboard.Export |
| components/Portfolio.tsx:90-96 | the guard passes an empty `galleryImages` array, and the step back from 0 gives `len - 1 = -1` | an item with `galleryImages: []`, then the left arrow key | the index stays at 0 | not executed | Portfolio.PrevOnEmptyGalleryGoesNegative | Portfolio.PrevImage |
| app/api/contact/route.ts:7-35 | the limiter is the plain object `{}`, so `rateLimit[ip]` finds an inherited member for an address such as "constructor"; its count becomes NaN and `NaN > 5` is false | six requests with `X-Forwarded-For: constructor` within an hour | at most five pass, as for every other address | not executed | ContactRoute.SixFromConstructorAllPass | ContactRoute.AtMostFivePerWindowAt |
| components/Navbar.tsx:140 | the list is rendered without `initialNotifications`, so its state is `undefined` and `notifications.filter` throws on the first render | an admin clicks the bell | an empty list, filled by realtime inserts | not executed | NotificationList.NavbarPanelNeverMounts | NotificationList.MountDefaulted |
| app/layout.tsx:26-33 | the root layout mounts the navbar inside the auth provider only, with no notifications provider, so `useNotifications()` returns the context's default: no rows and a `markAsRead` that does nothing | an admin receives a new booking and looks at the bell | the red dot shows and a bell click marks the unread rows | not executed | Navbar.NavbarState.HandleShowNotificationsWithoutProvider | Navbar.NavbarState.HandleShowNotifications |
| components/Testimonials.tsx:119 | `{t.rating && (...)}` renders the number 0 as text | a testimonial with `rating: 0` | render no star row | not executed | Testimonials.ZeroRatingRendersZero | Testimonials.RatingRowFor |
