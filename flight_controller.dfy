/** The HTTP mapping of the flight endpoints
    (backend/src/main/java/com/flight/controller/FlightController.java).
    Each handler turns its header and parameters, plus what the service
    returns, into a status code and a body. */
module FlightController {
  import opened Wrappers
  import opened Entities
  import Text
  import Flights
  import Seqs

  const BearerPrefix: string := "Bearer "
  /** The one user id every accepted token stands for. */
  const PlaceholderUserId: string := "user-id"

  const NotAuthenticatedMessage: string := "User not authenticated"
  const LockedMessage: string := "Seat locked successfully"
  const LockFailedMessage: string := "Failed to lock seat"
  const UnlockedMessage: string := "Seat unlocked successfully"

  datatype Response<T> = Response(status: int, body: T)

  /** `extractUserIdFromToken`: a header starting with "Bearer " yields the
      placeholder user id, whatever token follows; anything else, a missing
      header included, yields `null`. */
  function ExtractUserId(authHeader: Option<string>): (userId: Option<string>)
    ensures userId.Some? <==> authHeader.Some? && Text.StartsWith(authHeader.value, BearerPrefix)
    ensures userId.Some? ==> userId.value == PlaceholderUserId
  {
    if authHeader.Some? && Text.StartsWith(authHeader.value, BearerPrefix) then Some(PlaceholderUserId) else None
  }

  /** Every authenticated caller is the same user. */
  lemma OneUser(h1: Option<string>, h2: Option<string>)
    requires ExtractUserId(h1).Some? && ExtractUserId(h2).Some?
    ensures ExtractUserId(h1) == ExtractUserId(h2)
  {
  }

  /** The lock endpoint's answer, given the caller and the service's result. */
  function LockResponse(userId: Option<string>, locked: bool): (r: Response<string>)
    ensures r.status == 401 <==> userId.None?
    ensures r.status == 200 <==> userId.Some? && locked
    ensures r.status == 400 <==> userId.Some? && !locked
    ensures r.body == if userId.None? then NotAuthenticatedMessage else if locked then LockedMessage else LockFailedMessage
  {
    if userId.None? then Response(401, NotAuthenticatedMessage)
    else if locked then Response(200, LockedMessage)
    else Response(400, LockFailedMessage)
  }

  /** The unlock endpoint's answer: 401 without a user, and 200 otherwise,
      whether or not there was a lock to remove. */
  function UnlockResponse(userId: Option<string>): (r: Response<string>)
    ensures r.status == 401 <==> userId.None?
    ensures r.status == 200 <==> userId.Some?
    ensures r.body == if userId.None? then NotAuthenticatedMessage else UnlockedMessage
  {
    if userId.None? then Response(401, NotAuthenticatedMessage) else Response(200, UnlockedMessage)
  }

  /** `getFlightById`: 404 with no body exactly when there is no such flight,
      200 with the flight otherwise. */
  function FlightResponse(flight: Option<Flight>): (r: Response<Option<Flight>>)
    ensures r.status == 404 <==> flight.None?
    ensures r.status == 200 <==> flight.Some?
    ensures r.body == flight
  {
    if flight.None? then Response(404, None) else Response(200, flight)
  }

  /** `GET /api/flights/{flightId}`. */
  method GetFlight(service: Flights.FlightService, flightId: string) returns (r: Response<Option<Flight>>)
    ensures r.status == 200 <==> flightId in service.flights
    ensures r.status == 200 ==> r.body == Some(service.flights[flightId])
    ensures r.status == 404 <==> flightId !in service.flights
    ensures r == FlightResponse(if flightId in service.flights then Some(service.flights[flightId]) else None)
  {
    r := FlightResponse(service.FlightById(flightId));
  }

  /** `POST /api/flights/seat-lock`: without a user nothing is locked and
      the answer is 401; otherwise the answer is 200 exactly when the seat
      was available and is now locked by the placeholder user, and 400
      when it was not. */
  method LockSeat(service: Flights.FlightService, flightId: string, seatNumber: string, authHeader: Option<string>, now: int)
    returns (r: Response<string>)
    requires service.Valid()
    modifies service
    ensures service.Valid()
    ensures ExtractUserId(authHeader).None? ==> r.status == 401 && unchanged(service)
    ensures ExtractUserId(authHeader).Some? ==>
      (r.status == 200 <==> old(Flights.SeatAvailable(service.flights, service.locks, flightId, seatNumber, now)))
    ensures r.status == 200 ==>
      && service.locks == old(service.locks) + [Flights.SeatLock(flightId, seatNumber, PlaceholderUserId, now, now + Flights.LockSeconds)]
      && service.flights == Flights.Mark(old(service.flights), flightId, seatNumber, LockedStatus)
      && service.updates == old(service.updates) + Flights.Notice(old(service.flights), flightId, seatNumber, LockedStatus)
    ensures r == LockResponse(ExtractUserId(authHeader),
                              old(Flights.SeatAvailable(service.flights, service.locks, flightId, seatNumber, now)))
    ensures r.status != 200 ==>
      service.flights == old(service.flights) && service.locks == old(service.locks) && service.updates == old(service.updates)
  {
    var userId := ExtractUserId(authHeader);
    if userId.None? {
      return LockResponse(userId, false);
    }
    var locked := service.LockSeat(flightId, seatNumber, userId.value, now);
    r := LockResponse(userId, locked);
  }

  /** `DELETE /api/flights/seat-lock`: without a user nothing changes and
      the answer is 401. Otherwise the answer is 200 in every case, and,
      because every caller is the placeholder user, any lock taken through
      the lock endpoint is removed, whoever took it. */
  method UnlockSeat(service: Flights.FlightService, flightId: string, seatNumber: string, authHeader: Option<string>)
    returns (r: Response<string>)
    requires service.Valid()
    modifies service
    ensures service.Valid()
    ensures ExtractUserId(authHeader).None? ==> r.status == 401 && unchanged(service)
    ensures ExtractUserId(authHeader).Some? ==> r.status == 200
    ensures r == UnlockResponse(ExtractUserId(authHeader))
    ensures ExtractUserId(authHeader).Some? ==>
      var k := Seqs.FindIndex(old(service.locks), Flights.Owns(flightId, seatNumber, PlaceholderUserId));
      && (k < 0 ==>
            && service.flights == old(service.flights) && service.locks == old(service.locks)
            && service.updates == old(service.updates))
      && (k >= 0 ==>
            && service.locks == old(service.locks)[..k] + old(service.locks)[k + 1..]
            && service.flights == Flights.Mark(old(service.flights), flightId, seatNumber, AvailableStatus)
            && service.updates == old(service.updates) + Flights.Notice(old(service.flights), flightId, seatNumber, AvailableStatus)
            && (forall l :: l in service.locks ==> !Flights.At(l, flightId, seatNumber)))
  {
    var userId := ExtractUserId(authHeader);
    if userId.None? {
      return UnlockResponse(userId);
    }
    service.UnlockSeat(flightId, seatNumber, userId.value);
    r := UnlockResponse(userId);
  }
}
