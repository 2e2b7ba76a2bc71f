/** Start-up seeding (backend/src/main/java/com/flight/util/DataInitializer.java):
    the fixed 260-seat layout every seeded flight gets, the sample flights
    and users, and the "seed only an empty repository" guards. The clock is
    the `now` parameter, in local seconds; repository ids are not modelled
    (a seeded flight's id is empty, an airport is known by its IATA code). */
module Seeding {
  import opened Wrappers
  import opened Entities
  import Text

  /** One block of rows of the layout: its rows, its last column letter,
      its class and the price of each of its seats. */
  datatype Cabin = Cabin(firstRow: nat, lastRow: nat, lastColumn: char, seatClass: string, price: int)

  const FirstClass: Cabin := Cabin(1, 5, 'B', "First Class", 1000)
  const BusinessClass: Cabin := Cabin(6, 15, 'D', "Business", 600)
  const PremiumEconomy: Cabin := Cabin(16, 30, 'F', "Premium Economy", 400)
  const EconomyClass: Cabin := Cabin(31, 50, 'F', "Economy", 200)

  const LastRow: nat := 50
  const SeatCount: nat := 260

  /** The block a row of the layout belongs to. */
  function CabinOf(row: nat): (c: Cabin)
    requires 1 <= row <= LastRow
    ensures c.firstRow <= row <= c.lastRow
    ensures 'B' <= c.lastColumn <= 'F'
  {
    if row <= 5 then FirstClass
    else if row <= 15 then BusinessClass
    else if row <= 30 then PremiumEconomy
    else EconomyClass
  }

  /** Seats per row: two, four, then six. */
  function Columns(row: nat): nat
    requires 1 <= row <= LastRow
  {
    CabinOf(row).lastColumn as int - 'A' as int + 1
  }

  /** Seats in the rows before `row`. */
  function Offset(row: nat): (n: nat)
    requires 1 <= row <= LastRow + 1
  {
    if row <= 6 then 2 * (row - 1)
    else if row <= 16 then 10 + 4 * (row - 6)
    else if row <= 31 then 50 + 6 * (row - 16)
    else 140 + 6 * (row - 31)
  }

  lemma OffsetStep(row: nat)
    requires 1 <= row <= LastRow
    ensures Offset(row + 1) == Offset(row) + Columns(row)
  {
  }

  function ColumnLetter(k: nat): char
    requires k < 6
  {
    ('A' as int + k) as char
  }

  /** The seat in `row` at column `k` (0 for 'A'). */
  function SeatAt(row: nat, k: nat): Seat
    requires 1 <= row <= LastRow && k < Columns(row)
  {
    var c := CabinOf(row);
    Seat(Text.NatToString(row) + [ColumnLetter(k)], c.seatClass, c.price, c.price, AvailableStatus, row, [ColumnLetter(k)])
  }

  /** The row the `i`-th seat of the layout sits in. */
  function RowAt(i: nat): (row: nat)
    requires i < SeatCount
    ensures 1 <= row <= LastRow && Offset(row) <= i < Offset(row) + Columns(row)
  {
    if i < 10 then 1 + i / 2
    else if i < 50 then 6 + (i - 10) / 4
    else if i < 140 then 16 + (i - 50) / 6
    else 31 + (i - 140) / 6
  }

  /** The `i`-th seat of the layout. */
  function LayoutSeat(i: nat): Seat
    requires i < SeatCount
  {
    var row := RowAt(i);
    SeatAt(row, i - Offset(row))
  }

  /** The `k`-th seat of `row` is at index `Offset(row) + k`. */
  lemma IndexOfSeat(row: nat, k: nat)
    requires 1 <= row <= LastRow && k < Columns(row)
    ensures Offset(row) + k < SeatCount && RowAt(Offset(row) + k) == row
  {
  }

  predicate LaidOut(seats: seq<Seat>) {
    |seats| <= SeatCount && forall i :: 0 <= i < |seats| ==> seats[i] == LayoutSeat(i)
  }

  lemma LaidOutExtend(seats: seq<Seat>, s: Seat)
    requires LaidOut(seats) && |seats| < SeatCount && s == LayoutSeat(|seats|)
    ensures LaidOut(seats + [s])
  {
  }

  /** `c` is the block of each of its rows. */
  predicate IsCabin(c: Cabin) {
    && 1 <= c.firstRow <= c.lastRow <= LastRow
    && forall row :: c.firstRow <= row <= c.lastRow ==> CabinOf(row) == c
  }

  /** The rows of one block, row by row and column by column, appended to
      the seats of the rows before it. */
  method AddCabin(seats: seq<Seat>, c: Cabin) returns (out: seq<Seat>)
    requires IsCabin(c)
    requires |seats| == Offset(c.firstRow) && LaidOut(seats)
    ensures |out| == Offset(c.lastRow + 1) && LaidOut(out)
  {
    out := seats;
    var row := c.firstRow;
    while row <= c.lastRow
      invariant c.firstRow <= row <= c.lastRow + 1
      invariant |out| == Offset(row) && LaidOut(out)
    {
      assert CabinOf(row) == c;
      var col := 'A';
      while col <= c.lastColumn
        invariant 'A' <= col <= (c.lastColumn as int + 1) as char
        invariant |out| == Offset(row) + (col as int - 'A' as int) && LaidOut(out)
      {
        var seat := Seat(Text.NatToString(row) + [col], c.seatClass, c.price, c.price, AvailableStatus, row, [col]);
        LayoutComplete(row, col as int - 'A' as int);
        LaidOutExtend(out, seat);
        out := out + [seat];
        col := (col as int + 1) as char;
      }
      OffsetStep(row);
      row := row + 1;
    }
  }

  /** `createSeatsForFlight`: always the same 260 seats, whatever
      `totalSeats` says. */
  method CreateSeatsForFlight(totalSeats: int) returns (seats: seq<Seat>)
    ensures |seats| == SeatCount
    ensures forall i :: 0 <= i < |seats| ==> seats[i] == LayoutSeat(i)
  {
    seats := [];
    seats := AddCabin(seats, FirstClass);
    seats := AddCabin(seats, BusinessClass);
    seats := AddCabin(seats, PremiumEconomy);
    seats := AddCabin(seats, EconomyClass);
  }

  /** Every seat of the layout is available, at its block's price, with its
      row and column letter, and numbered by the row in decimal followed by
      the letter. */
  lemma LayoutSeatShape(i: nat)
    requires i < SeatCount
    ensures var s := LayoutSeat(i);
      && s.status == AvailableStatus
      && 1 <= s.row <= LastRow
      && s.seatClass == CabinOf(s.row).seatClass
      && s.basePrice == s.currentPrice == CabinOf(s.row).price
      && |s.column| == 1 && 'A' <= s.column[0] <= CabinOf(s.row).lastColumn
      && s.seatNumber == Text.NatToString(s.row) + s.column
  {
  }

  /** The blocks by row range: rows 1-5 First Class at 1000 in columns A-B,
      6-15 Business at 600 in A-D, 16-30 Premium Economy at 400 in A-F,
      31-50 Economy at 200 in A-F. */
  lemma CabinTable(row: nat)
    requires 1 <= row <= LastRow
    ensures 1 <= row <= 5 ==> CabinOf(row) == Cabin(1, 5, 'B', "First Class", 1000)
    ensures 6 <= row <= 15 ==> CabinOf(row) == Cabin(6, 15, 'D', "Business", 600)
    ensures 16 <= row <= 30 ==> CabinOf(row) == Cabin(16, 30, 'F', "Premium Economy", 400)
    ensures 31 <= row <= 50 ==> CabinOf(row) == Cabin(31, 50, 'F', "Economy", 200)
  {
  }

  /** Every seat of the grid is in the layout, at the index its row and
      column give. */
  lemma LayoutComplete(row: nat, k: nat)
    requires 1 <= row <= LastRow && k < Columns(row)
    ensures Offset(row) + k < SeatCount && LayoutSeat(Offset(row) + k) == SeatAt(row, k)
  {
    IndexOfSeat(row, k);
  }

  /** The layout is ordered by row, then by column. */
  lemma LayoutOrdered(i: nat, j: nat)
    requires i < j < SeatCount
    ensures LayoutSeat(i).row < LayoutSeat(j).row
         || (LayoutSeat(i).row == LayoutSeat(j).row && LayoutSeat(i).column[0] < LayoutSeat(j).column[0])
  {
    var ri, rj := RowAt(i), RowAt(j);
    if ri > rj {
      OffsetMonotone(rj + 1, ri);
      assert false;
    }
  }

  lemma {:induction false} OffsetMonotone(a: nat, b: nat)
    requires 1 <= a <= b <= LastRow + 1
    ensures Offset(a) <= Offset(b)
  {
    if a < b {
      OffsetStep(b - 1);
      OffsetMonotone(a, b - 1);
    }
  }

  /** No two seats of the layout share a seat number. */
  lemma LayoutDistinct(i: nat, j: nat)
    requires i < j < SeatCount
    ensures LayoutSeat(i).seatNumber != LayoutSeat(j).seatNumber
  {
    var si, sj := LayoutSeat(i), LayoutSeat(j);
    LayoutOrdered(i, j);
    if si.seatNumber == sj.seatNumber {
      var ni, nj := Text.NatToString(si.row), Text.NatToString(sj.row);
      assert si.seatNumber[|si.seatNumber| - 1] == si.column[0];
      assert sj.seatNumber[|sj.seatNumber| - 1] == sj.column[0];
      assert ni == si.seatNumber[..|ni|];
      assert nj == sj.seatNumber[..|nj|];
      Text.NatToStringInjective(si.row, sj.row);
      assert false;
    }
  }

  /** The sample flight's arguments, as `createFlight` receives them. */
  datatype FlightArgs = FlightArgs(
    flightNumber: string, airline: string, originAirportId: string, destinationAirportId: string,
    departureTime: int, arrivalTime: int, durationMinutes: int, aircraftId: string,
    price: int, availableSeats: int, totalSeats: int, status: string, flightType: string)

  /** `createFlight`: the arguments copied as they are, with the seat
      layout, whatever the seat counts passed. */
  method CreateFlight(a: FlightArgs) returns (f: Flight)
    ensures f.flightNumber == a.flightNumber && f.airline == a.airline
    ensures f.originAirportId == a.originAirportId && f.destinationAirportId == a.destinationAirportId
    ensures f.departureTime == a.departureTime && f.arrivalTime == a.arrivalTime
    ensures f.durationMinutes == a.durationMinutes && f.aircraftId == a.aircraftId && f.price == a.price
    ensures f.availableSeats == a.availableSeats && f.totalSeats == a.totalSeats
    ensures f.status == a.status && f.flightType == a.flightType
    ensures |f.seats| == SeatCount && forall i :: 0 <= i < SeatCount ==> f.seats[i] == LayoutSeat(i)
  {
    var seats := CreateSeatsForFlight(a.totalSeats);
    f := Flight("", a.flightNumber, a.airline, a.originAirportId, a.destinationAirportId,
                a.departureTime, a.arrivalTime, a.durationMinutes, a.aircraftId, a.price,
                a.availableSeats, a.totalSeats, a.status, seats, a.flightType, None);
  }

  const SecondsPerDay: int := 24 * 60 * 60

  /** `LocalDateTime.now().plusDays(days).withHour(hour).withMinute(minute)`:
      the hour and minute are replaced, the seconds of `now` are kept. */
  function DayAt(now: int, days: int, hour: int, minute: int): (t: int)
    requires 0 <= hour < 24 && 0 <= minute < 60
    ensures t / SecondsPerDay == now / SecondsPerDay + days
    ensures t % SecondsPerDay / 3600 == hour
    ensures t % 3600 / 60 == minute
    ensures t % 60 == now % 60
  {
    var day := now / SecondsPerDay + days;
    var within := hour * 3600 + minute * 60 + now % 60;
    DivMod(day, within, SecondsPerDay);
    DivMod(hour, minute * 60 + now % 60, 3600);
    DivMod(day * 24 + hour, minute * 60 + now % 60, 3600);
    DivMod(minute, now % 60, 60);
    DivMod(day * 1440 + hour * 60 + minute, now % 60, 60);
    day * SecondsPerDay + within
  }

  lemma DivMod(q: int, r: int, d: int)
    requires 0 <= r < d
    ensures (q * d + r) / d == q && (q * d + r) % d == r
  {
    var n := q * d + r;
    var k := n / d - q;
    assert d * k == r - n % d;
    if k > 0 {
      MulAtLeast(d, k);
    } else if k < 0 {
      MulAtLeast(d, -k);
    }
  }

  lemma MulAtLeast(d: int, k: int)
    requires 0 < d && 1 <= k
    ensures d * k >= d
  {
  }

  /** The four sample flights, between the airports found. */
  function SampleFlights(now: int): (args: seq<FlightArgs>)
    ensures |args| == 4
    ensures forall i :: 0 <= i < 4 ==> args[i].availableSeats == args[i].totalSeats != SeatCount
  {
    [ FlightArgs("AI101", "Air India", "DEL", "BOM", DayAt(now, 1, 8, 0), DayAt(now, 1, 10, 30),
                 150, "Boeing 737", 200, 180, 180, "On-time", "Direct"),
      FlightArgs("SG202", "SpiceJet", "BOM", "BLR", DayAt(now, 1, 14, 30), DayAt(now, 1, 16, 0),
                 90, "Airbus A320", 150, 180, 180, "On-time", "Direct"),
      FlightArgs("AI201", "Air India", "JFK", "LAX", DayAt(now, 1, 12, 0), DayAt(now, 1, 15, 0),
                 180, "Boeing 777", 400, 200, 200, "On-time", "Direct"),
      FlightArgs("DL101", "Delta Airlines", "LAX", "DEL", DayAt(now, 2, 20, 0), DayAt(now, 3, 18, 30),
                 1350, "Boeing 787", 800, 250, 250, "On-time", "Connecting") ]
  }

  /** `f` is what `createFlight` makes of `a`: every argument copied and
      the fixed seat layout. */
  ghost predicate MadeFrom(f: Flight, a: FlightArgs) {
    && f.flightNumber == a.flightNumber && f.airline == a.airline
    && f.originAirportId == a.originAirportId && f.destinationAirportId == a.destinationAirportId
    && f.departureTime == a.departureTime && f.arrivalTime == a.arrivalTime
    && f.durationMinutes == a.durationMinutes && f.aircraftId == a.aircraftId && f.price == a.price
    && f.availableSeats == a.availableSeats && f.totalSeats == a.totalSeats
    && f.status == a.status && f.flightType == a.flightType
    && |f.seats| == SeatCount && (forall i :: 0 <= i < SeatCount ==> f.seats[i] == LayoutSeat(i))
  }

  /** The sample flights `initializeFlights` saves, each made by
      `createFlight` from its arguments, in order. */
  method CreateFlights(args: seq<FlightArgs>) returns (created: seq<Flight>)
    ensures |created| == |args|
    ensures forall i :: 0 <= i < |args| ==> MadeFrom(created[i], args[i])
  {
    created := [];
    for i := 0 to |args|
      invariant |created| == i
      invariant forall j :: 0 <= j < i ==> MadeFrom(created[j], args[j])
    {
      var f := CreateFlight(args[i]);
      created := created + [f];
    }
  }

  datatype User = User(firstName: string, lastName: string, email: string, password: string,
                       roles: set<string>, isEnabled: bool)

  /** Index of the first space in `s`, or `|s|` when there is none. */
  function FirstSpace(s: string): (i: nat)
    ensures i <= |s|
    ensures forall j :: 0 <= j < i ==> s[j] != ' '
    ensures i < |s| ==> s[i] == ' '
  {
    if s == [] || s[0] == ' ' then 0 else 1 + FirstSpace(s[1..])
  }

  /** `username.split(" ", 2)`: the part before the first space, and the
      rest after it when there is a space. */
  function SplitName(username: string): (parts: seq<string>)
    ensures 1 <= |parts| <= 2
    ensures ' ' !in parts[0]
    ensures |parts| == 1 <==> ' ' !in username
    ensures |parts| == 1 ==> parts[0] == username
    ensures |parts| == 2 ==> parts[0] + " " + parts[1] == username
  {
    var i := FirstSpace(username);
    if i == |username| then [username]
    else
      assert username == username[..i] + " " + username[i + 1..];
      [username[..i], username[i + 1..]]
  }

  /** `createUser`: the first name is the part of the username before its
      first space, the last name everything after it ("" without a space);
      one role; enabled. */
  function CreateUser(username: string, email: string, password: string, role: string): (u: User)
    ensures ' ' !in u.firstName
    ensures ' ' in username ==> u.firstName + " " + u.lastName == username
    ensures ' ' !in username ==> u.firstName == username && u.lastName == ""
    ensures u.email == email && u.password == password && u.roles == {role} && u.isEnabled
  {
    var parts := SplitName(username);
    User(parts[0], if |parts| > 1 then parts[1] else "", email, password, {role}, true)
  }

  const SampleCountries: seq<string> := ["United States", "India", "United Kingdom", "Canada"]
  const SampleStates: seq<string> := ["California", "New York", "Delhi", "Maharashtra", "Karnataka"]
  const SampleAirports: seq<string> := ["JFK", "LAX", "ORD", "DEL", "BOM", "BLR", "LHR", "MAN", "YYZ", "YVR"]

  function SampleUsers(): seq<User> {
    [CreateUser("admin", "admin@example.com", "admin123", "ADMIN"),
     CreateUser("user", "user@example.com", "user123", "USER")]
  }

  /** The two seeded users: one-word names, so no last name; one role each. */
  lemma SampleUsersShape()
    ensures |SampleUsers()| == 2
    ensures SampleUsers()[0] == User("admin", "", "admin@example.com", "admin123", {"ADMIN"}, true)
    ensures SampleUsers()[1] == User("user", "", "user@example.com", "user123", {"USER"}, true)
  {
    assert ' ' !in "admin" && ' ' !in "user";
  }

  /** Why start-up stopped: `Optional.get()` on an airport that is not there. */
  datatype SeedError = MissingAirport(iataCode: string)

  /** What `initializeFlights` leaves in the flight repository, given the
      flights `before` it and the airports it finds: nothing changes unless
      the repository is empty and DEL, BOM and BLR exist; then a missing JFK
      (checked first) or LAX is the error and nothing is saved, and
      otherwise the four sample flights are saved, each made by
      `createFlight` from its arguments. */
  ghost predicate FlightsSeeded(before: seq<Flight>, airports: seq<string>, now: int,
                                r: Result<(), SeedError>, after: seq<Flight>) {
    var wanted := before == [] && "DEL" in airports && "BOM" in airports && "BLR" in airports;
    && (!wanted ==> r.Ok? && after == before)
    && (wanted ==> (r.Err? <==> !("JFK" in airports && "LAX" in airports)))
    && (r.Err? ==> after == before && r.error == MissingAirport(if "JFK" !in airports then "JFK" else "LAX"))
    && (wanted && r.Ok? ==>
          && |after| == 4
          && forall i :: 0 <= i < 4 ==> MadeFrom(after[i], SampleFlights(now)[i]))
  }

  /** The repositories the seeder writes to. Countries and states are known
      by name, airports by IATA code. */
  class DataInitializer {
    var countries: seq<string>
    var states: seq<string>
    var airports: seq<string>
    var flights: seq<Flight>
    var users: seq<User>

    constructor (countries: seq<string>, states: seq<string>, airports: seq<string>,
                 flights: seq<Flight>, users: seq<User>)
      ensures this.countries == countries && this.states == states && this.airports == airports
      ensures this.flights == flights && this.users == users
    {
      this.countries := countries;
      this.states := states;
      this.airports := airports;
      this.flights := flights;
      this.users := users;
    }

    /** Every repository holds something, so seeding writes nothing. */
    predicate Seeded()
      reads this
    {
      countries != [] && states != [] && airports != [] && flights != [] && users != []
    }

    /** `initializeCountriesAndStates`: each of the two repositories gets
        its sample list only when it is empty. */
    method InitializeCountriesAndStates()
      modifies this
      ensures countries == if old(countries) == [] then SampleCountries else old(countries)
      ensures states == if old(states) == [] then SampleStates else old(states)
      ensures airports == old(airports) && flights == old(flights) && users == old(users)
    {
      if |countries| == 0 {
        countries := SampleCountries;
      }
      if |states| == 0 {
        states := SampleStates;
      }
    }

    /** `initializeAirports`. */
    method InitializeAirports()
      modifies this
      ensures airports == if old(airports) == [] then SampleAirports else old(airports)
      ensures countries == old(countries) && states == old(states)
      ensures flights == old(flights) && users == old(users)
    {
      if |airports| == 0 {
        airports := SampleAirports;
      }
    }

    /** `initializeFlights`: only into an empty repository, and only when
        DEL, BOM and BLR exist; JFK and LAX are then taken without a check,
        so a missing one stops seeding with an error and saves nothing. */
    method InitializeFlights(now: int) returns (r: Result<(), SeedError>)
      modifies this
      ensures countries == old(countries) && states == old(states)
      ensures airports == old(airports) && users == old(users)
      ensures old(flights) != [] ==> r.Ok? && flights == old(flights)
      ensures old(flights) == [] && !("DEL" in airports && "BOM" in airports && "BLR" in airports) ==>
        r.Ok? && flights == []
      ensures r.Err? <==>
        old(flights) == [] && "DEL" in airports && "BOM" in airports && "BLR" in airports
        && !("JFK" in airports && "LAX" in airports)
      ensures r.Err? ==> flights == old(flights)
      ensures FlightsSeeded(old(flights), airports, now, r, flights)
      ensures old(flights) == [] && "DEL" in airports && "BOM" in airports && "BLR" in airports && r.Ok? ==>
        |flights| == 4
        && forall i :: 0 <= i < 4 ==> |flights[i].seats| == SeatCount != flights[i].totalSeats
    {
      if |flights| != 0 {
        return Ok(());
      }
      if !("DEL" in airports && "BOM" in airports && "BLR" in airports) {
        return Ok(());
      }
      if "JFK" !in airports {
        return Err(MissingAirport("JFK"));
      }
      if "LAX" !in airports {
        return Err(MissingAirport("LAX"));
      }
      flights := CreateFlights(SampleFlights(now));
      return Ok(());
    }

    /** `initializeUsers`. */
    method InitializeUsers()
      modifies this
      ensures users == if old(users) == [] then SampleUsers() else old(users)
      ensures countries == old(countries) && states == old(states)
      ensures airports == old(airports) && flights == old(flights)
    {
      if users == [] {
        users := SampleUsers();
      }
    }

    /** `run`: the four steps in order; an error in the flights step ends
        the run before the users are seeded. Once every repository holds
        something, running again changes nothing. */
    method Run(now: int) returns (r: Result<(), SeedError>)
      modifies this
      ensures old(Seeded()) ==>
        && r.Ok? && Seeded()
        && countries == old(countries) && states == old(states) && airports == old(airports)
        && flights == old(flights) && users == old(users)
      ensures r.Ok? ==> countries != [] && states != [] && airports != [] && users != []
      ensures r.Err? ==> users == old(users)
      ensures old(countries) == [] && old(states) == [] && old(airports) == [] && old(flights) == [] ==>
        r.Ok? && |flights| == 4
      ensures countries == if old(countries) == [] then SampleCountries else old(countries)
      ensures states == if old(states) == [] then SampleStates else old(states)
      ensures airports == if old(airports) == [] then SampleAirports else old(airports)
      ensures FlightsSeeded(old(flights), airports, now, r, flights)
      ensures users == if r.Ok? && old(users) == [] then SampleUsers() else old(users)
    {
      InitializeCountriesAndStates();
      InitializeAirports();
      r := InitializeFlights(now);
      if r.Err? {
        return;
      }
      InitializeUsers();
    }
  }
}
