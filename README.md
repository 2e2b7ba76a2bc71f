# Flight Booker in Dafny

A model of the booking logic of Flight Booker. The frontend is React and the backend is Spring with MongoDB. The model covers the seat-hold machinery on both sides of the wire and a few small server state machines.

**Client side**
- The seat-selection page (`SeatSelection.SeatSelectionPage`). It holds the seat list, the ordered selection, the lock countdowns and the timeout and interval handles. Timers are explicit `Tick` and `Expire` events. Whether a server call succeeds is a parameter.
- The STOMP push channel:
  - `WebSocket.WebSocketService`: the singleton service with its subscription map. The transport is a set of live subscription handles.
  - `WebSocketHook.UseWebSocket`: each hook instance's own map.
- The booking store (`Store`).
- The generic form hook (`FormHook`).
- The passenger and card forms (`PassengerForm`, `PaymentForm`).
- The validators (`Validation`) and the duration helpers (`DateUtils`).

**Server side**
- The seat-lock inventory and the flight search (`Flights.FlightService`). Its endpoint mapping is `FlightController`.
- Login throttling (`LoginAttempts.LoginAttemptService`).
- The booking lifecycle (`Bookings.BookingService`).
- The seed-data generator (`Seeding.DataInitializer`).

**Common conventions**
- Repositories are maps or sequences held in the fields of these classes.
- The clock is an integer parameter `now`: seconds on the server, milliseconds for `calculateDuration`.
- Prices are integers.
- Strings are `seq<char>`.
- JavaScript values that can be falsy are the datatype `Js.Value`.
- Helper modules:
  - `Wrappers`: `Option` and `Result`;
  - `Text`: JavaScript white space, trimming, digits, decimal printing, ASCII lower-casing;
  - `Js`: truthiness, UTF-16 string length, floored and truncated division;
  - `Seqs`: filter and its algebra;
  - `Entities`: the `Flight` and `Seat` records.

## Model

| member | source | states |
|---|---|---|
| SeatSelection.PriceOf | frontend/src/pages/SeatSelection.jsx:60 | `currentPrice \|\| basePrice`: a missing or zero current price falls back to the base price, any other wins |
| SeatSelection.Classify | frontend/src/pages/SeatSelection.jsx:55-57 | the class is first/business/premium by the first of those substrings the lower-cased class name contains, economy otherwise |
| SeatSelection.TransformSeat | frontend/src/pages/SeatSelection.jsx:53-63 | a loaded seat keeps its number as id, its row and column, its status; available iff the status is "Available"; price by `PriceOf` |
| SeatSelection.TransformSeats | frontend/src/pages/SeatSelection.jsx:53-63 | the load maps every server seat, in order, through the transform |
| SeatSelection.LoadedSeat | frontend/src/pages/SeatSelection.jsx:53-63 | a loaded seat is free exactly when the server says "Available", a current price of 0 falls back to the base price, and a class containing "first" in any letter case is first class |
| SeatSelection.SetStatus | frontend/src/pages/SeatSelection.jsx:87-97 | every seat with the id takes the status, with availability iff "Available"; every other seat is unchanged |
| SeatSelection.ApplyStatusFrame | frontend/src/pages/SeatSelection.jsx:87-97 | a status push changes only status and availability of the named seat; ids, classes and prices stay; an unknown seat number changes nothing |
| SeatSelection.ApplyPrices | frontend/src/pages/SeatSelection.jsx:121-133 | each seat listed in a price push (first matching entry) takes that entry's `currentPrice \|\| basePrice`; a push without a seat list changes nothing |
| SeatSelection.ApplyPricesFrame | frontend/src/pages/SeatSelection.jsx:121-133 | a price push changes prices only: unlisted seats keep theirs and no status, class or id changes |
| SeatSelection.LockedSeatNotSelectable | frontend/src/pages/SeatSelection.jsx:192-198 | after the lock marks the seat unavailable, the toggle guard at line 245 rejects it, so a freshly locked seat cannot be deselected |
| SeatSelection.TotalAppend | frontend/src/pages/SeatSelection.jsx:307-310 | the selection total is additive over concatenation of selections |
| SeatSelection.TotalBounds | frontend/src/pages/SeatSelection.jsx:582-585 | with non-negative prices the total is non-negative, and ids missing from the seat list contribute nothing |
| SeatSelection.FormatCountdownReadsBack | frontend/src/pages/SeatSelection.jsx:147-151 | the countdown text is the minutes, a colon and exactly two digits of leftover seconds, and both read back to the count |
| SeatSelection.SeatInOneCell | frontend/src/pages/SeatSelection.jsx:357-397 | every seat lies in exactly one cell of the grouping, the one of its own class and row |
| SeatSelection.GroupByRow | frontend/src/pages/SeatSelection.jsx:385-394 | grouping one class's list by row: each row's list is that class's seats of the row, in order, and only rows that occur get an entry |
| SeatSelection.GroupSeatsByCabinClass | frontend/src/pages/SeatSelection.jsx:357-397 | every seat is pushed onto its class's bucket in list order, and each bucket is then grouped by row, as the reference grouping says |
| SeatSelection.RowOccursInClass | frontend/src/pages/SeatSelection.jsx:385-394 | a row has an entry in a class's bucket exactly when some seat of that class sits in it |
| SeatSelection.SeatSelectionPage.constructor | frontend/src/pages/SeatSelection.jsx:25-33 | the first render: no seats, no selection, no countdowns, no timers |
| SeatSelection.SeatSelectionPage.LoadSeats | frontend/src/pages/SeatSelection.jsx:43-77 | the loaded seats are the transformed server seats; a failed request leaves an empty list and an error; selection, countdowns, timers, their records and the request log stay |
| SeatSelection.SeatSelectionPage.ForgetLock | frontend/src/pages/SeatSelection.jsx:213-228 | the seat's timeout and interval are cancelled and removed and its countdown dropped; other seats' entries stay |
| SeatSelection.SeatSelectionPage.OnSeatUpdate | frontend/src/pages/SeatSelection.jsx:84-115 | the seat list changes as the status push says; on "Available" the seat's recorded timeout and interval are cancelled, its records and countdown removed, and every other seat's records kept; on any other status no timer state changes |
| SeatSelection.SeatSelectionPage.OnPriceUpdate | frontend/src/pages/SeatSelection.jsx:118-135 | the seat list changes as the price push says, and nothing else: selection, countdowns, timers, their records, the load error and the request log stay |
| SeatSelection.SeatSelectionPage.LockSeat | frontend/src/pages/SeatSelection.jsx:153-205 | on failure false and no change; on success true, a fresh 120 s timeout and a fresh interval recorded for the seat (other seats' records kept, an older handle of the seat overwritten without being cancelled), countdown 120, the seat "Temporarily Locked" and unavailable, selection untouched |
| SeatSelection.SeatSelectionPage.UnlockSeat | frontend/src/pages/SeatSelection.jsx:207-241 | a failed call changes nothing but the request log; a successful one cancels the seat's recorded timeout and interval, removes its records and countdown, keeps every other seat's, and marks it "Available"; selection untouched |
| SeatSelection.SeatSelectionPage.ToggleSeat | frontend/src/pages/SeatSelection.jsx:243-258 | unknown or unavailable seat: nothing; selected seat: unlock attempted (with the unlock's exact timer effect when it succeeds) and the seat removed from the selection whatever the outcome; other seat: the lock's exact timer effect and the seat appended only when the lock succeeded; a failed call leaves all timer state alone |
| SeatSelection.SeatSelectionPage.Tick | frontend/src/pages/SeatSelection.jsx:174-186 | the countdown (120 when absent) drops by exactly one while above one; at one or below the interval is stopped and the value kept, so it never goes below one; seats, selection, timeouts, the handle records and the load error stay |
| SeatSelection.SeatSelectionPage.Expire | frontend/src/pages/SeatSelection.jsx:161-163 | the fired timeout leaves the pending set and the page calls the unlock: on success the seat's other recorded timer and interval are cancelled and its records and countdown removed, on failure nothing else changes; the seat stays in the selection either way |
| SeatSelection.SeatSelectionPage.Cleanup | frontend/src/pages/SeatSelection.jsx:138-144 | every recorded timeout and interval is cancelled and both records emptied; seats, selection, countdowns, the load error and the request log stay |
| WebSocket.KeyInjective | frontend/src/services/websocket.js:76 | the key `<kind>-<id>` determines kind and id, so only a second subscription to the same topic overwrites an entry |
| WebSocket.TopicOfKey | frontend/src/services/websocket.js:61-76 | each key names exactly one topic `/topic/<kind>/<id>` |
| WebSocket.HandleMessage | frontend/src/services/websocket.js:63-72 | the callback runs exactly once, with the parsed body, when the body is non-empty and parses; otherwise not at all, and nothing is thrown |
| WebSocket.WebSocketService.constructor | frontend/src/services/websocket.js:4-8 | no client, not connected, empty map, no live handles |
| WebSocket.WebSocketService.Connect | frontend/src/services/websocket.js:10-45 | no-op while connected; otherwise a new activated client becomes current, earlier clients are neither replaced nor deactivated, `connected` is unchanged |
| WebSocket.WebSocketService.OnConnect | frontend/src/services/websocket.js:27-33 | connected becomes true and the connect callback runs if one was given |
| WebSocket.WebSocketService.OnStompError | frontend/src/services/websocket.js:35-42 | connected becomes false, the map is kept, the error callback runs if one was given |
| WebSocket.WebSocketService.Disconnect | frontend/src/services/websocket.js:47-53 | with a client: deactivated, not connected, map cleared while every handle stays live; without one nothing changes |
| WebSocket.WebSocketService.SubscribeTo | frontend/src/services/websocket.js:55-153 | refused with `undefined` and no change while not connected; otherwise a fresh live handle on the topic is stored under the key, and an overwritten handle stays live |
| WebSocket.WebSocketService.Unsubscribe | frontend/src/services/websocket.js:155-161 | a present key's handle is unsubscribed and the key deleted; an absent key changes nothing |
| WebSocket.WebSocketService.SendSeatUpdate | frontend/src/services/websocket.js:163-179 | publishes exactly `{flightId, seat}` to `/app/seat-update` when connected, nothing otherwise |
| WebSocket.WebSocketService.SendFlightStatusUpdate | frontend/src/services/websocket.js:181-197 | publishes exactly `{flightId, status}` to `/app/flight-status-update` when connected, nothing otherwise |
| WebSocketHook.UnsubscribeStep | frontend/src/hooks/useWebSocket.js:28-30 | one more unsubscribed key removes exactly its map entry and its live handle |
| WebSocketHook.UseWebSocket.constructor | frontend/src/hooks/useWebSocket.js:5-8 | not connected, no error, empty subscription map |
| WebSocketHook.UseWebSocket.Mount | frontend/src/hooks/useWebSocket.js:10-23 | the shared service is asked to connect with both callbacks, with `Connect`'s effect; its subscriptions, live handles and published messages stay |
| WebSocketHook.UseWebSocket.OnConnected | frontend/src/hooks/useWebSocket.js:13-17 | connected and no error |
| WebSocketHook.UseWebSocket.OnError | frontend/src/hooks/useWebSocket.js:18-22 | not connected and the frame kept as the error |
| WebSocketHook.UseWebSocket.SubscribeTo | frontend/src/hooks/useWebSocket.js:38-96 | `undefined` and nothing recorded while the hook is not connected; otherwise the service's answer, even `undefined`, is stored under the service's key, overwriting; the service's clients, current client and published messages stay |
| WebSocketHook.UseWebSocket.Unsubscribe | frontend/src/hooks/useWebSocket.js:98-103 | only a key the hook recorded is passed to the service and then deleted; others change nothing; the service's clients, current client and published messages stay |
| WebSocketHook.UseWebSocket.Cleanup | frontend/src/hooks/useWebSocket.js:26-35 | every recorded key is unsubscribed, the hook's map is empty, and the shared service is disconnected for every user: its current client is deactivated and its other entries dropped while their handles stay live; the hook's own connected flag and error stay |
| Store.DefaultSearchParams | frontend/src/store/index.js:8-15 | the defaults: empty airports and dates, one passenger, one way |
| Store.SetSearchParams | frontend/src/store/index.js:17-19 | the parameters' keys win, every other key keeps its value, nothing outside the search changes |
| Store.SetSearchParamsTwice | frontend/src/store/index.js:17-19 | two merges are one merge of the second parameters laid over the first |
| Store.ClearSearchParams | frontend/src/store/index.js:21-30 | exactly the defaults again; nothing else changes |
| Store.ClearUndoesSet | frontend/src/store/index.js:17-30 | clearing after a merge is the same as clearing without it |
| Store.AddSeat | frontend/src/store/index.js:42-44 | the seat is appended, duplicates included, so the length grows by one |
| Store.RemoveSeat | frontend/src/store/index.js:46-48 | no occurrence of the seat remains and every other seat keeps every copy |
| Store.RemoveSeatKeepsOrder | frontend/src/store/index.js:46-48 | removal distributes over a split of the selection, so the rest keep their order |
| Store.RemoveAfterAdd | frontend/src/store/index.js:42-48 | add then remove equals remove alone, however often the seat was already selected |
| Store.RemoveAbsentSeat | frontend/src/store/index.js:46-48 | removing an unselected seat changes nothing |
| Store.ClearSelectedSeats | frontend/src/store/index.js:50 | the selection is empty and nothing else changes |
| Store.ResetBooking | frontend/src/store/index.js:72-78 | every booking field is back to its initial value and the search parameters are kept |
| Store.ResetAndClearIsInitial | frontend/src/store/index.js:8-78 | reset followed by clearing the search is the initial store |
| Flights.ExpiryInstant | backend/src/main/java/com/flight/service/FlightService.java:104 | at `expiresAt` a lock neither blocks its seat nor is due for release; before it blocks, after it is due |
| Flights.SeatStatus | backend/src/main/java/com/flight/service/FlightService.java:110-114 | none exactly when no seat of the flight has the number |
| Flights.SetSeatStatus | backend/src/main/java/com/flight/service/FlightService.java:138-147 | only seat statuses change: every seat is kept or takes the new status, and the list keeps its length and the flight its other fields |
| Flights.SetSeatStatusEffect | backend/src/main/java/com/flight/service/FlightService.java:138-147 | after setting, that number reads the new status when the seat exists; every other number reads as before |
| Flights.MarkEffect | backend/src/main/java/com/flight/service/FlightService.java:136-148 | the repository keeps its flights; only the marked seat of the marked flight changes status |
| Flights.LockedSeatUnavailable | backend/src/main/java/com/flight/service/FlightService.java:112 | under the lock invariant a stored lock keeps its seat unavailable at every instant, also after expiry, since its status stays "Temporarily Locked" |
| Flights.ReleaseAllEffect | backend/src/main/java/com/flight/service/FlightService.java:178-193 | the release loop sets each released lock's existing seat to "Available" and no other seat, and keeps the set of flights |
| Flights.FlightService.constructor | backend/src/main/java/com/flight/service/FlightService.java:83-85 | the given repository and no locks |
| Flights.FlightService.FlightById | backend/src/main/java/com/flight/service/FlightService.java:83-85 | the flight stored under the id, none when absent |
| Flights.FlightService.IsSeatAvailable | backend/src/main/java/com/flight/service/FlightService.java:95-117 | true iff the flight exists, no lock on the seat expires strictly after now, and the first seat with the number is "Available" |
| Flights.FlightService.MarkSeat | backend/src/main/java/com/flight/service/FlightService.java:136-148 | the seat gets the status, and exactly one update is sent, when flight and seat exist; otherwise nothing |
| Flights.FlightService.LockSeat | backend/src/main/java/com/flight/service/FlightService.java:119-151 | unavailable: false and no change; otherwise one lock from now to now plus two minutes is added, the seat is "Temporarily Locked", true; the lock invariant is kept |
| Flights.FlightService.UnlockSeat | backend/src/main/java/com/flight/service/FlightService.java:153-174 | no lock of that user for the seat: no change; otherwise that lock is deleted, no lock for the seat remains, and the seat is "Available" |
| Flights.FlightService.ReleaseExpiredLocks | backend/src/main/java/com/flight/service/FlightService.java:176-195 | exactly the locks expired strictly before now are deleted and their seats set to "Available"; other locks stay in order; the invariant is kept |
| Flights.FlightService.ReleaseSeats | backend/src/main/java/com/flight/service/FlightService.java:178-193 | the loop's repository and updates are those of the release specification, lock by lock |
| Flights.FlightService.SearchFlights | backend/src/main/java/com/flight/service/FlightService.java:34-71 | the result is a permutation of the query result with every type set, sorted by the chosen order, ties kept in input order |
| Flights.LockKeepsConsistent | backend/src/main/java/com/flight/service/FlightService.java:119-151 | locking an available seat keeps the invariant: every lock's seat "Temporarily Locked", one lock per seat |
| Flights.UnlockKeepsConsistent | backend/src/main/java/com/flight/service/FlightService.java:153-174 | deleting a lock and freeing its seat keeps the invariant and leaves no lock for the seat |
| Flights.ReleaseKeepsConsistent | backend/src/main/java/com/flight/service/FlightService.java:176-195 | the release keeps the invariant for the surviving locks |
| Flights.ReleaseFreesSeat | backend/src/main/java/com/flight/service/FlightService.java:176-195 | after the release, the seat of every expired lock is available again |
| Flights.ReleaseKeepsLockAtExpiry | backend/src/main/java/com/flight/service/FlightService.java:177 | a lock expiring exactly at now survives the release and its seat stays unavailable |
| Flights.DetermineFlightType | backend/src/main/java/com/flight/service/FlightService.java:73-81 | "Connecting" iff connecting flights are present and non-empty, else "Direct"; nothing else changes |
| Flights.TypedAll | backend/src/main/java/com/flight/service/FlightService.java:42-45 | every flight of the list, in place, has its type set |
| Flights.ParseSortBy | backend/src/main/java/com/flight/service/FlightService.java:48-68 | the four names in any letter case pick their order; everything else picks the combined order |
| Flights.StableIsPermutation | backend/src/main/java/com/flight/service/FlightService.java:48-68 | a reordering that keeps every tie class in order is a permutation |
| Flights.InsertSorted | backend/src/main/java/com/flight/service/FlightService.java:48-68 | inserting after the flights not above and before those above keeps the list sorted |
| Flights.InsertStable | backend/src/main/java/com/flight/service/FlightService.java:48-68 | that insertion appends to its own tie class and leaves every other class as it was |
| Flights.SortFlights | backend/src/main/java/com/flight/service/FlightService.java:48-68 | the result is sorted ascending by the order and has every tie class in input order |
| FlightController.ExtractUserId | backend/src/main/java/com/flight/controller/FlightController.java:97-106 | a header starting with "Bearer " yields the placeholder user id whatever follows; anything else yields none |
| FlightController.OneUser | backend/src/main/java/com/flight/controller/FlightController.java:97-106 | every authenticated caller is the same user |
| FlightController.LockResponse | backend/src/main/java/com/flight/controller/FlightController.java:60-78 | 401 without a user, 200 iff the lock succeeded, 400 otherwise |
| FlightController.UnlockResponse | backend/src/main/java/com/flight/controller/FlightController.java:80-94 | 401 without a user, 200 otherwise whether or not a lock existed |
| FlightController.FlightResponse | backend/src/main/java/com/flight/controller/FlightController.java:40-48 | 404 with no body iff there is no flight, 200 with the flight otherwise |
| FlightController.GetFlight | backend/src/main/java/com/flight/controller/FlightController.java:40-48 | the endpoint answers 404 with no body when the repository has no such flight, and 200 with the stored flight otherwise; it changes nothing |
| FlightController.LockSeat | backend/src/main/java/com/flight/controller/FlightController.java:60-78 | the answer is exactly the endpoint's response for the caller and the seat's prior availability: no user, 401 and nothing locked; else 200 iff the seat was available, and then the placeholder user's two-minute lock is appended, the seat is marked "Temporarily Locked" and one seat update is sent, exactly as `Mark` and `Notice` say; any other answer (400, or 401) leaves the service unchanged |
| FlightController.UnlockSeat | backend/src/main/java/com/flight/controller/FlightController.java:80-94 | the answer is exactly the endpoint's response for the caller; no user: 401 and no change; else always 200: with no lock of the placeholder user on the seat nothing changes, otherwise its first such lock is deleted, the seat marked "Available" with one seat update, and no lock on the seat remains |
| LoginAttempts.Fresh | backend/src/main/java/com/flight/entity/LoginAttempt.java:29-34 | a new record has no attempts, is not blocked and has no expiration |
| LoginAttempts.Fail | backend/src/main/java/com/flight/service/LoginAttemptService.java:27-49 | one more attempt than found (0 when none), last attempt now; from five on, blocked until now plus 30 minutes; below five the block fields are kept |
| LoginAttempts.Observe | backend/src/main/java/com/flight/service/LoginAttemptService.java:51-70 | a block expired strictly before now is lifted with the count reset and the answer false; otherwise the stored flag and no change |
| LoginAttempts.ExpiryInstant | backend/src/main/java/com/flight/service/LoginAttemptService.java:58 | at the expiration instant `isBlocked` still says blocked while `isIpAddressBlocked` no longer counts the record |
| LoginAttempts.FailuresFromNothing | backend/src/main/java/com/flight/service/LoginAttemptService.java:27-49 | from no record, n failures give n attempts and a block exactly when n is at least five |
| LoginAttempts.FailureAfterUnobservedExpiry | backend/src/main/java/com/flight/service/LoginAttemptService.java:42-46 | a record whose block ran out unobserved is blocked again, for 30 more minutes, by the next failure |
| LoginAttempts.ObservedExpiryGivesFiveMore | backend/src/main/java/com/flight/service/LoginAttemptService.java:60-64 | once `isBlocked` lifted a block, it takes exactly five more failures to block again |
| LoginAttempts.FailuresFromReset | backend/src/main/java/com/flight/service/LoginAttemptService.java:27-49 | from a reset record, n failures give n attempts and a block exactly from the fifth |
| LoginAttempts.Remaining | backend/src/main/java/com/flight/service/LoginAttemptService.java:72-81 | five without a record; otherwise five minus the attempts, never below zero, and zero exactly from five attempts on |
| LoginAttempts.LoginAttemptService.constructor | backend/src/main/java/com/flight/service/LoginAttemptService.java:18-19 | no records |
| LoginAttempts.LoginAttemptService.Find | backend/src/main/java/com/flight/service/LoginAttemptService.java:29-30 | the record of the (ip, username) pair, none when absent |
| LoginAttempts.LoginAttemptService.LoginSucceeded | backend/src/main/java/com/flight/service/LoginAttemptService.java:21-25 | the pair's record is deleted and the remaining attempts are five again |
| LoginAttempts.LoginAttemptService.LoginFailed | backend/src/main/java/com/flight/service/LoginAttemptService.java:27-49 | only the pair's record changes, to `Fail` of the one found |
| LoginAttempts.LoginAttemptService.IsBlocked | backend/src/main/java/com/flight/service/LoginAttemptService.java:51-70 | false without a record; otherwise the answer and the stored record are `Observe`'s; true only for a block that has not run out |
| LoginAttempts.LoginAttemptService.GetRemainingAttempts | backend/src/main/java/com/flight/service/LoginAttemptService.java:72-81 | `Remaining` of the stored record, always between 0 and 5 |
| LoginAttempts.LoginAttemptService.IsIpAddressBlocked | backend/src/main/java/com/flight/service/LoginAttemptService.java:83-93 | true iff some record of the address is blocked with expiration strictly after now |
| Bookings.PnrCharactersAreAlphanumeric | backend/src/main/java/com/flight/service/BookingService.java:32 | a character is in the PNR alphabet iff it is a capital letter or a decimal digit |
| Bookings.ConfirmationMail | backend/src/main/java/com/flight/service/BookingService.java:122-149 | a mail exists iff the passenger list is present and non-empty and the first email is present and non-empty; it goes to that address with the PNR after the subject prefix |
| Bookings.Confirm | backend/src/main/java/com/flight/service/BookingService.java:55-78 | unknown id: no change and none; otherwise "Confirmed" with the payment id whatever the status was, and the flight, if stored, loses as many available seats as the booking holds |
| Bookings.Cancel | backend/src/main/java/com/flight/service/BookingService.java:80-93 | unknown id: no change and none; otherwise "Cancelled" and no flight changes |
| Bookings.ConfirmTwiceDecrementsTwice | backend/src/main/java/com/flight/service/BookingService.java:55-78 | with no status guard a second confirm takes the seats off the flight again |
| Bookings.CancelThenConfirm | backend/src/main/java/com/flight/service/BookingService.java:55-93 | cancelling returns no seats, and a cancelled booking can still be confirmed, taking its seats again |
| Bookings.BookingService.constructor | backend/src/main/java/com/flight/service/BookingService.java:36-53 | the given flights, no bookings, no mails |
| Bookings.BookingService.GeneratePnr | backend/src/main/java/com/flight/service/BookingService.java:111-117 | six characters, each from the 36-character alphabet |
| Bookings.BookingService.CreateBooking | backend/src/main/java/com/flight/service/BookingService.java:36-53 | a new "Pending" booking with the arguments, a valid PNR and no payment, under a fresh id; nothing else changes |
| Bookings.BookingService.SendConfirmation | backend/src/main/java/com/flight/service/BookingService.java:122-149 | the mail, when there is one, is handed over unless the mailer fails; repositories untouched |
| Bookings.BookingService.ConfirmBooking | backend/src/main/java/com/flight/service/BookingService.java:55-78 | the repositories become those of `Confirm`, the result does not depend on the mailer, at most the confirmation mail is added, and the id counter is kept |
| Bookings.BookingService.CancelBooking | backend/src/main/java/com/flight/service/BookingService.java:80-93 | the repositories become those of `Cancel`; no mail is sent and the id counter is kept |
| Seeding.AddCabin | backend/src/main/java/com/flight/util/DataInitializer.java:285-346 | the seats of one block, row by row and column by column, appended at the indexes the layout gives them |
| Seeding.CreateSeatsForFlight | backend/src/main/java/com/flight/util/DataInitializer.java:272-349 | always 260 seats, the layout's seats in order, whatever `totalSeats` is |
| Seeding.LayoutSeatShape | backend/src/main/java/com/flight/util/DataInitializer.java:285-346 | every layout seat is "Available", base price equals current price equals its block's price, and its number is the decimal row then the column letter |
| Seeding.CabinTable | backend/src/main/java/com/flight/util/DataInitializer.java:285-346 | rows 1-5 First Class A-B 1000, 6-15 Business A-D 600, 16-30 Premium Economy A-F 400, 31-50 Economy A-F 200 |
| Seeding.LayoutComplete | backend/src/main/java/com/flight/util/DataInitializer.java:285-346 | every (row, column) of the grid appears in the layout, at the index row and column give |
| Seeding.LayoutOrdered | backend/src/main/java/com/flight/util/DataInitializer.java:285-296 | the layout is ordered by row, then by column |
| Seeding.LayoutDistinct | backend/src/main/java/com/flight/util/DataInitializer.java:285-296 | no two layout seats share a seat number |
| Seeding.CreateFlight | backend/src/main/java/com/flight/util/DataInitializer.java:244-270 | the arguments are copied as they are and the seats are the 260-seat layout whatever the seat counts |
| Seeding.DayAt | backend/src/main/java/com/flight/util/DataInitializer.java:219-236 | the instant falls on the day `days` after today, at the given hour and minute, with the seconds of now kept |
| Seeding.SampleFlights | backend/src/main/java/com/flight/util/DataInitializer.java:218-236 | four flights, each with as many available seats as total seats, a count different from the 260 seats laid out |
| Seeding.CreateFlights | backend/src/main/java/com/flight/util/DataInitializer.java:218-240 | flight i is what `CreateFlight` makes of argument i: every argument field copied and the fixed 260-seat layout |
| Seeding.SplitName | backend/src/main/java/com/flight/util/DataInitializer.java:369-370 | the part before the first space, and the rest after it when there is a space; joining them with a space gives the name back |
| Seeding.CreateUser | backend/src/main/java/com/flight/util/DataInitializer.java:366-381 | first name before the first space, last name the rest or "" without a space, exactly the one role, enabled |
| Seeding.SampleUsersShape | backend/src/main/java/com/flight/util/DataInitializer.java:351-364 | the two seeded users have one-word names, so empty last names, and one role each |
| Seeding.DataInitializer.InitializeCountriesAndStates | backend/src/main/java/com/flight/util/DataInitializer.java:58-141 | each repository gets its sample list only when empty |
| Seeding.DataInitializer.InitializeAirports | backend/src/main/java/com/flight/util/DataInitializer.java:143-204 | the sample airports only when the repository is empty |
| Seeding.DataInitializer.InitializeFlights | backend/src/main/java/com/flight/util/DataInitializer.java:206-242 | only into an empty repository and only when DEL, BOM and BLR exist; then a missing JFK (checked first) or LAX is the error with nothing saved, and otherwise flight i is what `CreateFlight` makes of sample argument i |
| Seeding.DataInitializer.InitializeUsers | backend/src/main/java/com/flight/util/DataInitializer.java:351-364 | the sample users only when the repository is empty |
| Seeding.DataInitializer.Run | backend/src/main/java/com/flight/util/DataInitializer.java:39-56 | countries, states and airports each take their sample list exactly when empty, flights as `initializeFlights` leaves them given the airports after that step, and users their sample list exactly when empty and the flights step did not fail; on seeded repositories it changes nothing |
| Validation.ValidateEmailIsPattern | frontend/src/utils/validation.js:1-4 | the scan accepts exactly strings holding a run of non-space, '@', non-space, '.', non-space anywhere in them |
| Validation.EmailFromExists | frontend/src/utils/validation.js:2-3 | the scan from a position succeeds iff some '@' at or after it has a fitting run on both sides |
| Validation.LengthRulesAgree | frontend/src/utils/validation.js:6-30 | the password and passport rules are the same rule of at least six UTF-16 code units: kept by extending the input, met by any six characters, never by fewer than three |
| Validation.CardNumberIgnoresSpaces | frontend/src/utils/validation.js:11-15 | inserting white space anywhere does not change the verdict |
| Validation.SixteenDigitsAccepted | frontend/src/utils/validation.js:11-15 | a string of sixteen digits is accepted as it stands |
| Validation.CvvRejectsSpaces | frontend/src/utils/validation.js:17-20 | a CVV with a leading blank is rejected, since nothing is stripped |
| Validation.ExpiryDateIsMonthYear | frontend/src/utils/validation.js:22-25 | accepted iff the string is MM/YY with MM from 01 to 12 and YY any two digits |
| Validation.PhoneIgnoresSeparators | frontend/src/utils/validation.js:32-36 | non-digits inserted anywhere do not change the verdict |
| Validation.ValidateRequired | frontend/src/utils/validation.js:38-40 | truthy iff the value is a string with a non-empty trim; a falsy value comes back as itself |
| DateUtils.FormatDurationSplits | frontend/src/utils/dateUtils.js:20-24 | for non-negative minutes the text is hours "h " rest "m" with `60 * hours + rest == minutes` and `0 <= rest < 60` |
| DateUtils.FormatDurationNegative | frontend/src/utils/dateUtils.js:20-24 | -1 prints as "-1h -1m": floored hours with a truncated remainder |
| DateUtils.SplitFormatted | frontend/src/utils/dateUtils.js:23 | the printed hours and minutes are read back off the text |
| DateUtils.FormatDurationInjective | frontend/src/utils/dateUtils.js:20-24 | distinct non-negative durations print differently |
| DateUtils.CalculateDuration | frontend/src/utils/dateUtils.js:26-32 | the whole minutes between the timestamps, rounded down: `60000 * r <= diff < 60000 * (r + 1)` |
| DateUtils.CalculateDurationSign | frontend/src/utils/dateUtils.js:26-32 | negative when arrival precedes departure, zero for gaps under a minute |
| Js.Length | frontend/src/utils/validation.js:8 | `length` counts UTF-16 code units: between the number of characters and twice that, and equal to it when no character is above U+FFFF |
| Js.LengthAppend | frontend/src/hooks/useForm.js:35-37 | the length of a concatenation is the sum of the lengths |
| Validation.AstralCharacterCountsTwice | frontend/src/utils/validation.js:6-9 | four letters and an emoji are five characters but pass the six-unit password minimum |
| Js.FloorDiv | frontend/src/utils/dateUtils.js:21 | `Math.floor(a / b)`: the greatest q with `q * b <= a` |
| Js.Rem | frontend/src/utils/dateUtils.js:22 | `a % b`: the remainder of truncated division, with the sign of `a` and smaller than `b` in size |
| Js.FloorRemNonNegative | frontend/src/utils/dateUtils.js:21-22 | for non-negative operands the two agree with Euclidean division |
| FormHook.ErrorForIffSomeCheckFails | frontend/src/hooks/useForm.js:31-41 | a field has an error iff one of its checks fails, and a rule's own message replaces every default |
| FormHook.RequiredComesFirst | frontend/src/hooks/useForm.js:31-32 | when the required check fails, its text wins over every other failing check |
| FormHook.FalsyOnlyRequired | frontend/src/hooks/useForm.js:31-40 | a falsy value is only ever rejected by the required check |
| FormHook.ErrorsOf | frontend/src/hooks/useForm.js:27-42 | a field without a rule never gets an error |
| FormHook.Validate | frontend/src/hooks/useForm.js:24-46 | the errors are replaced by exactly `ErrorsOf` the values, and the answer is true iff there are none |
| FormHook.HandleChange | frontend/src/hooks/useForm.js:8-22 | the field takes `checked` for a checkbox and the text otherwise; only its error, and only a non-empty one, is blanked |
| FormHook.ClearError | frontend/src/hooks/useForm.js:16-21 | a present error text becomes empty with its key kept; every other entry is unchanged |
| FormHook.ChangeThenValidate | frontend/src/hooks/useForm.js:8-46 | after a change, validation judges the new value; no blanked error survives for a value that passes |
| FormHook.ResetForgetsChanges | frontend/src/hooks/useForm.js:48-51 | after reset no error is shown and validation judges the initial values |
| PassengerForm.InitialPassenger | frontend/src/components/booking/PassengerForm.jsx:4-12 | each of the seven fields missing from the initial data starts as "", each given one as given |
| PassengerForm.PlainFieldError | frontend/src/components/booking/PassengerForm.jsx:35-63 | first and last name, phone, passport and nationality have an error iff their trim is empty |
| PassengerForm.EmailError | frontend/src/components/booking/PassengerForm.jsx:43-47 | "required" when blank, otherwise "invalid" iff the pattern does not match; never both |
| PassengerForm.DateOfBirthError | frontend/src/components/booking/PassengerForm.jsx:57-59 | an error iff the date is the empty string, with no trimming |
| PassengerForm.ValidateForm | frontend/src/components/booking/PassengerForm.jsx:32-67 | the errors built field by field are exactly the form's errors, and the answer is true iff there are none |
| PassengerForm.DateOfBirthNotTrimmed | frontend/src/components/booking/PassengerForm.jsx:57-63 | a date of birth of one space raises no error, while one space as first name raises "First name is required" |
| PassengerForm.ClearError | frontend/src/components/booking/PassengerForm.jsx:24-29 | a present non-empty error text is blanked; every other field's error stays |
| PassengerForm.HandleChange | frontend/src/components/booking/PassengerForm.jsx:16-30 | the field takes the text and only that field's error is blanked |
| PassengerForm.HandleSubmit | frontend/src/components/booking/PassengerForm.jsx:69-75 | the data is submitted iff validation finds no error, and submitted data has every field filled and an email matching the pattern |
| PaymentForm.CardNumberError | frontend/src/components/payments/PaymentForm.jsx:33-37 | "required" when the trim is empty, otherwise "invalid" unless sixteen digits once white space is removed |
| PaymentForm.CvvError | frontend/src/components/payments/PaymentForm.jsx:43-47 | "required" when the trim is empty, otherwise "invalid" unless the untrimmed text is three or four digits |
| PaymentForm.PresenceOnlyErrors | frontend/src/components/payments/PaymentForm.jsx:39-51 | expiry date and holder name get an error iff their trim is empty, with no format check |
| PaymentForm.FormLaxerAndStricterThanValidators | frontend/src/components/payments/PaymentForm.jsx:39-47 | "13/99" passes the form but not the expiry validator, and " 123" is an invalid CVV |
| PaymentForm.ValidateCardForm | frontend/src/components/payments/PaymentForm.jsx:30-55 | the errors built field by field are exactly the card's errors, and the answer is true iff there are none |
| PaymentForm.NoErrorsMeansValidCard | frontend/src/components/payments/PaymentForm.jsx:30-55 | validation passes iff all four fields are filled, the number is sixteen digits up to white space and the CVV three or four digits |
| PaymentForm.HandleCardChange | frontend/src/components/payments/PaymentForm.jsx:14-28 | the field takes the text; only its error, when set, is blanked |
| PaymentForm.HandlePayment | frontend/src/components/payments/PaymentForm.jsx:57-69 | a failing card schedules nothing; a passing one sets `processing` and schedules the submission of the current method and card |
| PaymentForm.TimerFires | frontend/src/components/payments/PaymentForm.jsx:64-67 | the oldest pending timer clears `processing` and submits what it captured; method, card data and errors stay |
| PaymentForm.StepsKeepScheduledValid | frontend/src/components/payments/PaymentForm.jsx:57-69 | every scheduled submission carries a card that passed validation, before and after any change or timer |

## Left out
- Prices are Java `Double` and JavaScript numbers in the source. They are only copied and summed, so they are integers here. The `toFixed(2)` display is not modelled.
- `toLowerCase` is modelled for ASCII letters only. There is no Unicode case mapping.
- `JSON.parse` is a parameter of `WebSocket.HandleMessage`, with `None` standing for a parse error. `JSON.stringify` is represented by the message record.
- Browser timers, React render batching and the interleaving of awaited calls are not modelled. Each handler is one atomic step, and timers are explicit events.
- SeatSelectionPage.Cleanup is an event the caller chooses when to fire. In the source the subscription effect lists the hook's subscribe functions as dependencies, and the hook makes new ones on every render. So once connected, the cleanup runs before every re-render, including the one that follows a successful `lockSeat`. Lock timeouts and countdown intervals therefore do not survive in the source. The model does not force that sequence.
- Every server operation is also one atomic step. Two concurrent `lockSeat` calls that both pass the availability check before either saves are therefore not captured. Neither is the interleaving of the lock-release scheduler with requests.
- `toggleSeat` closes over a possibly stale `selectedSeats`. The model reads the current selection.
- The STOMP client's reconnect delay and heartbeats are not modelled. Console logging is not modelled either.
- Passenger.java is not part of this model. Bookings keep only each passenger's email.
- `searchFlights` takes the repository's query result as input. The MongoDB date-range query is not modelled.
- Java `int` overflow is not modelled. This covers `availableSeats` and the attempt count.
- `durationMinutes` and `price` can be null in the Java source, and the comparators of `searchFlights` would then throw. The model treats both as always present.
- ConfirmBooking does not model a booking stored without a seat list. In the source, `booking.getSeats().size()` would then throw.
- CalculateDuration takes two millisecond timestamps. The source parses its arguments with `new Date(...)`, and a string it cannot parse gives `NaN` minutes. Neither the parsing nor `NaN` is modelled.
- The store's plain setters are not modelled: `setSelectedFlight`, `clearSelectedFlight`, `setPassengerData`, `clearPassengerData`, `setPaymentData`, `clearPaymentData` and `setLoading`. Each only assigns one field.
- `getSeatClass`, the rendering and the navigation of the seat page are not modelled.
- The body text of the confirmation mail is not modelled. The mail service is an append to `mails`, and whether it throws is a parameter.
- `SecureRandom` in `generatePNR` is a nondeterministic choice. The source does not check that PNRs are unique, and neither does the model.
- Repository-assigned ids are simplified. Booking ids are numbers. Airports are identified by their IATA code. Seeded flights carry the id "".
- Country, state and airport records are kept as their names or codes. The links between them are not modelled, and neither are coordinates or time zones. Start-up would also fail if the stored countries or states already held a duplicate name, because `Collectors.toMap` throws on a duplicate key; the model does not capture that failure.
- The `seatCounter` variable of `createSeatsForFlight` is never read by the source, so the model does not keep it.
- The `createdAt` and `updatedAt` timestamps are not modelled.
- Each call to `LocalDateTime.now()` within one operation is the same instant `now`.
- The order in which the repositories return records is not modelled. `IsIpAddressBlocked` visits the records in any order.
- The payment, pricing, scheduler, security, airport, email and WebSocket-controller services are not modelled, and neither are the API client or the pages other than seat selection. The schedulers only call `releaseExpiredLocks` and the price update on a timer.
