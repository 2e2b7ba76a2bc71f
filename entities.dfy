/** The server-side records the services share: a flight with its seat map
    (backend entity `Flight`) and one seat of it (entity `Seat`). Instants
    are whole seconds, and money is a whole number of currency units. */
module Entities {
  import opened Wrappers

  /** The seat statuses the services write. */
  const AvailableStatus: string := "Available"
  const LockedStatus: string := "Temporarily Locked"

  datatype Seat = Seat(
    seatNumber: string,
    seatClass: string,
    basePrice: int,
    currentPrice: int,
    status: string,
    row: int,
    column: string)

  /** A flight. `connectingFlights` is `None` when the list is null. */
  datatype Flight = Flight(
    id: string,
    flightNumber: string,
    airline: string,
    originAirportId: string,
    destinationAirportId: string,
    departureTime: int,
    arrivalTime: int,
    durationMinutes: int,
    aircraftId: string,
    price: int,
    availableSeats: int,
    totalSeats: int,
    status: string,
    seats: seq<Seat>,
    flightType: string,
    connectingFlights: Option<seq<Flight>>)
}
