/** The server's seat-lock inventory and flight search
    (backend/src/main/java/com/flight/service/FlightService.java).

    The flight repository is the map `flights` from id to flight, the lock
    repository is the sequence `locks` of stored `SeatLock` records, and
    every seat update sent over the push channel is appended to `updates`.
    The clock is the `now` parameter, in seconds. */
module Flights {
  import opened Wrappers
  import opened Entities
  import Seqs
  import Text

  /** A lock lasts two minutes. */
  const LockSeconds: int := 120

  datatype SeatLock = SeatLock(flightId: string, seatNumber: string, userId: string, lockedAt: int, expiresAt: int)

  /** A seat update sent to the clients: the flight id and the changed seat. */
  datatype SeatUpdate = SeatUpdate(flightId: string, seat: Seat)

  /** The lock is for seat `seatNumber` of flight `flightId`. */
  predicate At(l: SeatLock, flightId: string, seatNumber: string) {
    l.flightId == flightId && l.seatNumber == seatNumber
  }

  /** `expiresAt.isAfter(now)`: the lock still holds the seat. */
  predicate Blocks(l: SeatLock, now: int) {
    l.expiresAt > now
  }

  /** `findByExpiresAtBefore(now)`: the lock is due for release. */
  predicate Expired(l: SeatLock, now: int) {
    l.expiresAt < now
  }

  function ExpiredAt(now: int): SeatLock -> bool {
    (l: SeatLock) => Expired(l, now)
  }

  function NotExpiredAt(now: int): SeatLock -> bool {
    (l: SeatLock) => !Expired(l, now)
  }

  /** At the instant a lock expires it neither holds its seat nor is due for
      release: the two tests are strict on opposite sides. */
  lemma ExpiryInstant(l: SeatLock)
    ensures !Blocks(l, l.expiresAt) && !Expired(l, l.expiresAt)
    ensures forall now :: now < l.expiresAt ==> Blocks(l, now)
    ensures forall now :: now > l.expiresAt ==> Expired(l, now)
  {
  }

  // ---------------------------------------------------------------------
  // Seats of one flight. Every loop over `flight.getSeats()` acts on the
  // first seat with the given number and stops there.

  function NumberIs(seatNumber: string): Seat -> bool {
    (s: Seat) => s.seatNumber == seatNumber
  }

  function SeatIndex(seats: seq<Seat>, seatNumber: string): int {
    Seqs.FindIndex(seats, NumberIs(seatNumber))
  }

  /** The status of the first seat numbered `seatNumber`, if there is one. */
  function SeatStatus(f: Flight, seatNumber: string): (r: Option<string>)
    ensures r.None? <==> forall i :: 0 <= i < |f.seats| ==> f.seats[i].seatNumber != seatNumber
  {
    var k := SeatIndex(f.seats, seatNumber);
    if k < 0 then None else Some(f.seats[k].status)
  }

  /** Two seat lists with the same numbers in the same places have the same
      first seat for every number. */
  lemma SameNumbersSameIndex(a: seq<Seat>, b: seq<Seat>, seatNumber: string)
    requires |a| == |b| && forall i :: 0 <= i < |a| ==> a[i].seatNumber == b[i].seatNumber
    ensures SeatIndex(a, seatNumber) == SeatIndex(b, seatNumber)
  {
    var ka, kb := SeatIndex(a, seatNumber), SeatIndex(b, seatNumber);
    if ka >= 0 {
      assert NumberIs(seatNumber)(b[ka]);
    }
    if kb >= 0 {
      assert NumberIs(seatNumber)(a[kb]);
    }
  }

  /** The first seat numbered `seatNumber` gets `status`. */
  function SetSeatStatus(f: Flight, seatNumber: string, status: string): (r: Flight)
    ensures r == f.(seats := r.seats) && |r.seats| == |f.seats|
    ensures forall i :: 0 <= i < |f.seats| ==> r.seats[i] == f.seats[i] || r.seats[i] == f.seats[i].(status := status)
  {
    var k := SeatIndex(f.seats, seatNumber);
    if k < 0 then f else f.(seats := f.seats[k := f.seats[k].(status := status)])
  }

  /** Setting a seat's status changes the status seen for that seat number,
      when there is such a seat, and for no other number. */
  lemma SetSeatStatusEffect(f: Flight, seatNumber: string, status: string, m: string)
    ensures SeatStatus(SetSeatStatus(f, seatNumber, status), m) ==
      if m == seatNumber && SeatStatus(f, seatNumber).Some? then Some(status) else SeatStatus(f, m)
  {
    var r := SetSeatStatus(f, seatNumber, status);
    SameNumbersSameIndex(f.seats, r.seats, m);
  }

  /** The repository after one seat-update loop: the flight, when it exists,
      is saved with that seat's new status. */
  function Mark(flights: map<string, Flight>, flightId: string, seatNumber: string, status: string): map<string, Flight> {
    if flightId in flights then flights[flightId := SetSeatStatus(flights[flightId], seatNumber, status)] else flights
  }

  /** The push message the same loop sends: one when the seat exists. */
  function Notice(flights: map<string, Flight>, flightId: string, seatNumber: string, status: string): seq<SeatUpdate> {
    if flightId !in flights then []
    else
      var k := SeatIndex(flights[flightId].seats, seatNumber);
      if k < 0 then [] else [SeatUpdate(flightId, flights[flightId].seats[k].(status := status))]
  }

  lemma MarkEffect(flights: map<string, Flight>, flightId: string, seatNumber: string, status: string, g: string, m: string)
    ensures Mark(flights, flightId, seatNumber, status).Keys == flights.Keys
    ensures g in flights ==>
      SeatStatus(Mark(flights, flightId, seatNumber, status)[g], m) ==
        if g == flightId && m == seatNumber && SeatStatus(flights[g], m).Some? then Some(status)
        else SeatStatus(flights[g], m)
  {
    if g in flights && g == flightId {
      SetSeatStatusEffect(flights[g], seatNumber, status, m);
    }
  }

  // ---------------------------------------------------------------------
  // Availability and the lock invariant.

  /** Some lock for the seat still holds it at `now`. */
  predicate Held(locks: seq<SeatLock>, flightId: string, seatNumber: string, now: int) {
    exists l :: l in locks && At(l, flightId, seatNumber) && Blocks(l, now)
  }

  /** `isSeatAvailable`: the flight exists, no lock for the seat expires
      after `now`, and the first seat with that number is "Available". */
  predicate SeatAvailable(flights: map<string, Flight>, locks: seq<SeatLock>, flightId: string, seatNumber: string, now: int) {
    && flightId in flights
    && !Held(locks, flightId, seatNumber, now)
    && SeatStatus(flights[flightId], seatNumber) == Some(AvailableStatus)
  }

  /** What the lock operations keep true: each stored lock's seat exists and
      is "Temporarily Locked", no seat has two locks, and no lock is stored
      twice. */
  predicate Consistent(flights: map<string, Flight>, locks: seq<SeatLock>) {
    LocksHeld(flights, locks) && OneLockPerSeat(locks) && NoDuplicates(locks)
  }

  predicate LocksHeld(flights: map<string, Flight>, locks: seq<SeatLock>) {
    forall l :: l in locks ==>
      l.flightId in flights && SeatStatus(flights[l.flightId], l.seatNumber) == Some(LockedStatus)
  }

  predicate OneLockPerSeat(locks: seq<SeatLock>) {
    forall l1, l2 :: l1 in locks && l2 in locks && At(l2, l1.flightId, l1.seatNumber) ==> l1 == l2
  }

  predicate NoDuplicates(locks: seq<SeatLock>) {
    forall l :: l in locks ==> multiset(locks)[l] == 1
  }

  /** A stored lock keeps its seat unavailable at every instant, also after
      it has expired, until it is released or unlocked: the seat's status
      stays "Temporarily Locked". */
  lemma LockedSeatUnavailable(flights: map<string, Flight>, locks: seq<SeatLock>, l: SeatLock, now: int)
    requires Consistent(flights, locks) && l in locks
    ensures !SeatAvailable(flights, locks, l.flightId, l.seatNumber, now)
  {
    assert SeatStatus(flights[l.flightId], l.seatNumber) == Some(LockedStatus);
  }

  // ---------------------------------------------------------------------
  // Releasing expired locks, one lock after the other.

  /** The repository after the release loop has handled `released` in order. */
  function ReleaseAll(flights: map<string, Flight>, released: seq<SeatLock>): map<string, Flight>
    decreases |released|
  {
    if released == [] then flights
    else
      var l := released[|released| - 1];
      Mark(ReleaseAll(flights, released[..|released| - 1]), l.flightId, l.seatNumber, AvailableStatus)
  }

  /** The seat updates the release loop sends for `released`, in order. */
  function ReleaseNotices(flights: map<string, Flight>, released: seq<SeatLock>): seq<SeatUpdate>
    decreases |released|
  {
    if released == [] then []
    else
      var prefix := released[..|released| - 1];
      var l := released[|released| - 1];
      ReleaseNotices(flights, prefix) + Notice(ReleaseAll(flights, prefix), l.flightId, l.seatNumber, AvailableStatus)
  }

  /** Some lock in `released` is for seat `m` of flight `g`. */
  predicate Covers(released: seq<SeatLock>, g: string, m: string) {
    exists l :: l in released && At(l, g, m)
  }

  /** Releasing sets each released lock's seat, when it exists, to
      "Available", and changes no other seat and no set of flights. */
  lemma {:induction false} ReleaseAllEffect(flights: map<string, Flight>, released: seq<SeatLock>, g: string, m: string)
    ensures ReleaseAll(flights, released).Keys == flights.Keys
    ensures g in flights ==>
      SeatStatus(ReleaseAll(flights, released)[g], m) ==
        if Covers(released, g, m) && SeatStatus(flights[g], m).Some? then Some(AvailableStatus)
        else SeatStatus(flights[g], m)
    decreases |released|
  {
    if released != [] {
      var prefix := released[..|released| - 1];
      var l := released[|released| - 1];
      ReleaseAllEffect(flights, prefix, g, m);
      MarkEffect(ReleaseAll(flights, prefix), l.flightId, l.seatNumber, AvailableStatus, g, m);
      assert released == prefix + [l];
      assert Covers(released, g, m) <==> Covers(prefix, g, m) || At(l, g, m) by {
        if Covers(released, g, m) {
          var x :| x in released && At(x, g, m);
          assert x in prefix || x == l;
        }
        if Covers(prefix, g, m) {
          var x :| x in prefix && At(x, g, m);
          assert x in released;
        }
      }
    }
  }

  class FlightService {
    var flights: map<string, Flight>
    var locks: seq<SeatLock>
    var updates: seq<SeatUpdate>

    ghost predicate Valid()
      reads this
    {
      Consistent(flights, locks)
    }

    /** A service over an existing flight repository and an empty lock table. */
    constructor (flights: map<string, Flight>)
      ensures Valid()
      ensures this.flights == flights && locks == [] && updates == []
    {
      this.flights := flights;
      locks := [];
      updates := [];
    }

    /** `getFlightById`: `None` stands for `null`. */
    function FlightById(flightId: string): (r: Option<Flight>)
      reads this
      ensures r.Some? <==> flightId in flights
      ensures r.Some? ==> r.value == flights[flightId]
    {
      if flightId in flights then Some(flights[flightId]) else None
    }

    /** `isSeatAvailable(flightId, seatNumber)` at instant `now`. */
    method IsSeatAvailable(flightId: string, seatNumber: string, now: int) returns (available: bool)
      ensures available == SeatAvailable(flights, locks, flightId, seatNumber, now)
    {
      if flightId !in flights {
        return false;
      }
      var i := 0;
      while i < |locks|
        invariant 0 <= i <= |locks|
        invariant forall j :: 0 <= j < i ==> !(At(locks[j], flightId, seatNumber) && Blocks(locks[j], now))
      {
        if At(locks[i], flightId, seatNumber) && locks[i].expiresAt > now {
          return false;
        }
        i := i + 1;
      }
      var seats := flights[flightId].seats;
      var k := 0;
      while k < |seats|
        invariant 0 <= k <= |seats|
        invariant forall j :: 0 <= j < k ==> seats[j].seatNumber != seatNumber
      {
        if seats[k].seatNumber == seatNumber {
          assert NumberIs(seatNumber)(seats[k]);
          return seats[k].status == AvailableStatus;
        }
        k := k + 1;
      }
      return false;
    }

    /** The loop the three lock operations share: the first seat numbered
        `seatNumber` of the flight, if both exist, gets `status`, the flight
        is saved and the changed seat is sent to the clients. */
    method MarkSeat(flightId: string, seatNumber: string, status: string)
      modifies this
      ensures flights == Mark(old(flights), flightId, seatNumber, status)
      ensures updates == old(updates) + Notice(old(flights), flightId, seatNumber, status)
      ensures locks == old(locks)
    {
      if flightId !in flights {
        return;
      }
      var flight := flights[flightId];
      var i := 0;
      while i < |flight.seats|
        invariant 0 <= i <= |flight.seats|
        invariant forall j :: 0 <= j < i ==> flight.seats[j].seatNumber != seatNumber
      {
        if flight.seats[i].seatNumber == seatNumber {
          assert NumberIs(seatNumber)(flight.seats[i]);
          var seat := flight.seats[i].(status := status);
          flights := flights[flightId := flight.(seats := flight.seats[i := seat])];
          updates := updates + [SeatUpdate(flightId, seat)];
          return;
        }
        i := i + 1;
      }
    }

    /** `lockSeat(flightId, seatNumber, userId)` at instant `now`: refused,
        with nothing changed, unless the seat is available; otherwise one
        two-minute lock is stored, the seat becomes "Temporarily Locked",
        and the result is true. */
    method LockSeat(flightId: string, seatNumber: string, userId: string, now: int) returns (locked: bool)
      requires Valid()
      modifies this
      ensures Valid()
      ensures locked == old(SeatAvailable(flights, locks, flightId, seatNumber, now))
      ensures !locked ==> flights == old(flights) && locks == old(locks) && updates == old(updates)
      ensures locked ==>
        && locks == old(locks) + [SeatLock(flightId, seatNumber, userId, now, now + LockSeconds)]
        && flights == Mark(old(flights), flightId, seatNumber, LockedStatus)
        && updates == old(updates) + Notice(old(flights), flightId, seatNumber, LockedStatus)
      ensures locked ==> SeatStatus(flights[flightId], seatNumber) == Some(LockedStatus)
    {
      locked := IsSeatAvailable(flightId, seatNumber, now);
      if !locked {
        return;
      }
      ghost var oldFlights, oldLocks := flights, locks;
      var lock := SeatLock(flightId, seatNumber, userId, now, now + LockSeconds);
      locks := locks + [lock];
      MarkSeat(flightId, seatNumber, LockedStatus);
      LockKeepsConsistent(oldFlights, oldLocks, lock);
    }

    /** `unlockSeat(flightId, seatNumber, userId)`: without a lock of that
        user for the seat nothing changes; otherwise that lock is deleted
        and the seat becomes "Available", after which no lock for the seat
        remains. */
    method UnlockSeat(flightId: string, seatNumber: string, userId: string)
      requires Valid()
      modifies this
      ensures Valid()
      ensures var k := Seqs.FindIndex(old(locks), Owns(flightId, seatNumber, userId));
        && (k < 0 ==> flights == old(flights) && locks == old(locks) && updates == old(updates))
        && (k >= 0 ==>
              && locks == old(locks)[..k] + old(locks)[k + 1..]
              && flights == Mark(old(flights), flightId, seatNumber, AvailableStatus)
              && updates == old(updates) + Notice(old(flights), flightId, seatNumber, AvailableStatus)
              && (forall l :: l in locks ==> !At(l, flightId, seatNumber))
              && SeatStatus(flights[flightId], seatNumber) == Some(AvailableStatus))
    {
      var k := Seqs.FindIndex(locks, Owns(flightId, seatNumber, userId));
      if k < 0 {
        return;
      }
      ghost var oldFlights, oldLocks := flights, locks;
      locks := locks[..k] + locks[k + 1..];
      MarkSeat(flightId, seatNumber, AvailableStatus);
      UnlockKeepsConsistent(oldFlights, oldLocks, k);
    }

    /** `releaseExpiredLocks()` at instant `now`: every lock that expired
        strictly before `now` has its seat set to "Available", in table
        order, and then all of them are deleted; the other locks stay, in
        their order. */
    method ReleaseExpiredLocks(now: int)
      requires Valid()
      modifies this
      ensures Valid()
      ensures var expired := Seqs.Filter(old(locks), ExpiredAt(now));
        && flights == ReleaseAll(old(flights), expired)
        && updates == old(updates) + ReleaseNotices(old(flights), expired)
      ensures locks == Seqs.Filter(old(locks), NotExpiredAt(now))
    {
      var expired := Seqs.Filter(locks, ExpiredAt(now));
      ghost var oldFlights, oldLocks := flights, locks;
      ReleaseSeats(expired);
      locks := Seqs.Filter(locks, NotExpiredAt(now));
      ReleaseKeepsConsistent(oldFlights, oldLocks, now);
    }

    /** The loop of `releaseExpiredLocks`: each lock's seat, in order, is set
        to "Available" and sent to the clients. */
    method ReleaseSeats(expired: seq<SeatLock>)
      modifies this
      ensures flights == ReleaseAll(old(flights), expired)
      ensures updates == old(updates) + ReleaseNotices(old(flights), expired)
      ensures locks == old(locks)
    {
      for i := 0 to |expired|
        invariant locks == old(locks)
        invariant flights == ReleaseAll(old(flights), expired[..i])
        invariant updates == old(updates) + ReleaseNotices(old(flights), expired[..i])
      {
        var l := expired[i];
        assert expired[..i + 1][..i] == expired[..i];
        MarkSeat(l.flightId, l.seatNumber, AvailableStatus);
      }
      Seqs.TakeAll(expired);
    }

    /** `searchFlights`, from the repository's answer `found` to the query:
        every flight's type is set, then the list is sorted by the order
        `sortBy` names. */
    method SearchFlights(found: seq<Flight>, sortBy: string) returns (result: seq<Flight>)
      ensures |result| == |found|
      ensures var typed := TypedAll(found);
        && multiset(result) == multiset(typed)
        && Sorted(ParseSortBy(sortBy), result)
        && StableFrom(ParseSortBy(sortBy), typed, result)
      ensures forall i :: 0 <= i < |result| ==>
        result[i].flightType == (if HasConnections(result[i]) then ConnectingType else DirectType)
    {
      var typed := found;
      for i := 0 to |typed|
        invariant |typed| == |found|
        invariant forall j :: 0 <= j < i ==> typed[j] == DetermineFlightType(found[j])
        invariant forall j :: i <= j < |typed| ==> typed[j] == found[j]
      {
        typed := typed[i := DetermineFlightType(typed[i])];
      }
      assert typed == TypedAll(found);
      result := SortFlights(typed, ParseSortBy(sortBy));
      forall i | 0 <= i < |result|
        ensures result[i].flightType == (if HasConnections(result[i]) then ConnectingType else DirectType)
      {
        assert result[i] in multiset(typed);
      }
    }
  }

  /** The repository query `findByFlightIdAndSeatNumberAndUserId`. */
  function Owns(flightId: string, seatNumber: string, userId: string): SeatLock -> bool {
    (l: SeatLock) => At(l, flightId, seatNumber) && l.userId == userId
  }

  /** A table whose every lock occurs in `locks` at most as often keeps the
      uniqueness half of the invariant. */
  lemma SubTableUnique(locks: seq<SeatLock>, sub: seq<SeatLock>)
    requires OneLockPerSeat(locks) && NoDuplicates(locks)
    requires forall x :: multiset(sub)[x] <= multiset(locks)[x]
    ensures OneLockPerSeat(sub) && NoDuplicates(sub)
  {
    forall l | l in sub
      ensures multiset(sub)[l] == 1
    {
      assert multiset(sub)[l] > 0;
    }
    forall l1, l2 | l1 in sub && l2 in sub && At(l2, l1.flightId, l1.seatNumber)
      ensures l1 == l2
    {
      assert multiset(sub)[l1] > 0 && multiset(sub)[l2] > 0;
      assert l1 in locks && l2 in locks;
    }
  }

  lemma LockKeepsConsistent(flights: map<string, Flight>, locks: seq<SeatLock>, lock: SeatLock)
    requires Consistent(flights, locks)
    requires SeatAvailable(flights, locks, lock.flightId, lock.seatNumber, lock.lockedAt)
    ensures Consistent(Mark(flights, lock.flightId, lock.seatNumber, LockedStatus), locks + [lock])
  {
    LockKeepsHeld(flights, locks, lock);
    LockKeepsUnique(locks, lock);
  }

  lemma LockKeepsHeld(flights: map<string, Flight>, locks: seq<SeatLock>, lock: SeatLock)
    requires LocksHeld(flights, locks)
    requires lock.flightId in flights && SeatStatus(flights[lock.flightId], lock.seatNumber).Some?
    ensures LocksHeld(Mark(flights, lock.flightId, lock.seatNumber, LockedStatus), locks + [lock])
  {
    var f, s := lock.flightId, lock.seatNumber;
    var flights' := Mark(flights, f, s, LockedStatus);
    forall l | l in locks + [lock]
      ensures l.flightId in flights' && SeatStatus(flights'[l.flightId], l.seatNumber) == Some(LockedStatus)
    {
      MarkEffect(flights, f, s, LockedStatus, l.flightId, l.seatNumber);
    }
  }

  /** A lock for a seat with no lock yet keeps every seat's lock unique. */
  lemma LockKeepsUnique(locks: seq<SeatLock>, lock: SeatLock)
    requires OneLockPerSeat(locks) && NoDuplicates(locks)
    requires forall l :: l in locks ==> !At(l, lock.flightId, lock.seatNumber)
    ensures OneLockPerSeat(locks + [lock]) && NoDuplicates(locks + [lock])
  {
    assert lock !in locks;
    assert multiset(locks + [lock]) == multiset(locks) + multiset{lock};
  }

  lemma UnlockKeepsConsistent(flights: map<string, Flight>, locks: seq<SeatLock>, k: int)
    requires Consistent(flights, locks) && 0 <= k < |locks|
    ensures var l := locks[k];
      var flights' := Mark(flights, l.flightId, l.seatNumber, AvailableStatus);
      var locks' := locks[..k] + locks[k + 1..];
      && Consistent(flights', locks')
      && (forall x :: x in locks' ==> !At(x, l.flightId, l.seatNumber))
      && SeatStatus(flights'[l.flightId], l.seatNumber) == Some(AvailableStatus)
  {
    var l := locks[k];
    var f, s := l.flightId, l.seatNumber;
    var flights' := Mark(flights, f, s, AvailableStatus);
    var locks' := locks[..k] + locks[k + 1..];
    assert locks == locks[..k] + [l] + locks[k + 1..];
    assert multiset(locks) == multiset(locks') + multiset{l};
    assert l !in locks';
    SubTableUnique(locks, locks');
    forall x | x in locks'
      ensures !At(x, f, s)
      ensures x.flightId in flights' && SeatStatus(flights'[x.flightId], x.seatNumber) == Some(LockedStatus)
    {
      assert x in locks;
      MarkEffect(flights, f, s, AvailableStatus, x.flightId, x.seatNumber);
    }
    MarkEffect(flights, f, s, AvailableStatus, f, s);
  }

  lemma ReleaseKeepsConsistent(flights: map<string, Flight>, locks: seq<SeatLock>, now: int)
    requires Consistent(flights, locks)
    ensures Consistent(ReleaseAll(flights, Seqs.Filter(locks, ExpiredAt(now))), Seqs.Filter(locks, NotExpiredAt(now)))
  {
    var expired := Seqs.Filter(locks, ExpiredAt(now));
    var kept := Seqs.Filter(locks, NotExpiredAt(now));
    var flights' := ReleaseAll(flights, expired);
    Seqs.FilterCount(locks, NotExpiredAt(now));
    forall l | l in kept
      ensures l.flightId in flights' && SeatStatus(flights'[l.flightId], l.seatNumber) == Some(LockedStatus)
    {
      assert multiset(kept)[l] > 0;
      KeptNotReleased(locks, l, now);
      ReleaseAllEffect(flights, expired, l.flightId, l.seatNumber);
    }
    SubTableUnique(locks, kept);
  }

  /** With one lock per seat, no released lock is for the seat of a kept one. */
  lemma KeptNotReleased(locks: seq<SeatLock>, l: SeatLock, now: int)
    requires OneLockPerSeat(locks) && l in locks && !Expired(l, now)
    ensures !Covers(Seqs.Filter(locks, ExpiredAt(now)), l.flightId, l.seatNumber)
  {
    var expired := Seqs.Filter(locks, ExpiredAt(now));
    Seqs.FilterCount(locks, ExpiredAt(now));
    forall x | x in expired
      ensures !At(x, l.flightId, l.seatNumber)
    {
      assert multiset(expired)[x] > 0;
    }
  }

  /** After a release at `now`, the seat of every lock that had expired is
      available again at `now`: its status is "Available" and no lock for it
      is left. */
  lemma ReleaseFreesSeat(flights: map<string, Flight>, locks: seq<SeatLock>, l: SeatLock, now: int)
    requires Consistent(flights, locks) && l in locks && Expired(l, now)
    ensures SeatAvailable(ReleaseAll(flights, Seqs.Filter(locks, ExpiredAt(now))),
                          Seqs.Filter(locks, NotExpiredAt(now)), l.flightId, l.seatNumber, now)
  {
    var expired := Seqs.Filter(locks, ExpiredAt(now));
    ExpiredIsReleased(locks, l, now);
    assert SeatStatus(flights[l.flightId], l.seatNumber) == Some(LockedStatus);
    ReleaseAllEffect(flights, expired, l.flightId, l.seatNumber);
    NoneKeptAt(locks, l, now);
  }

  /** An expired lock is among those released. */
  lemma ExpiredIsReleased(locks: seq<SeatLock>, l: SeatLock, now: int)
    requires l in locks && Expired(l, now)
    ensures Covers(Seqs.Filter(locks, ExpiredAt(now)), l.flightId, l.seatNumber)
  {
    var expired := Seqs.Filter(locks, ExpiredAt(now));
    Seqs.FilterCount(locks, ExpiredAt(now));
    assert ExpiredAt(now)(l);
    assert multiset(expired)[l] == multiset(locks)[l] > 0;
    assert l in expired;
  }

  /** With one lock per seat, no kept lock is for the seat of an expired one. */
  lemma NoneKeptAt(locks: seq<SeatLock>, l: SeatLock, now: int)
    requires OneLockPerSeat(locks) && l in locks && Expired(l, now)
    ensures !Held(Seqs.Filter(locks, NotExpiredAt(now)), l.flightId, l.seatNumber, now)
  {
    var kept := Seqs.Filter(locks, NotExpiredAt(now));
    Seqs.FilterCount(locks, NotExpiredAt(now));
    forall x | x in kept
      ensures !At(x, l.flightId, l.seatNumber)
    {
      assert multiset(kept)[x] > 0;
    }
  }

  /** A lock that expires exactly at `now` survives the release at `now`,
      and its seat stays unavailable. */
  lemma ReleaseKeepsLockAtExpiry(flights: map<string, Flight>, locks: seq<SeatLock>, l: SeatLock)
    requires Consistent(flights, locks) && l in locks
    ensures l in Seqs.Filter(locks, NotExpiredAt(l.expiresAt))
    ensures !SeatAvailable(ReleaseAll(flights, Seqs.Filter(locks, ExpiredAt(l.expiresAt))),
                           Seqs.Filter(locks, NotExpiredAt(l.expiresAt)), l.flightId, l.seatNumber, l.expiresAt)
  {
    var now := l.expiresAt;
    Seqs.FilterCount(locks, NotExpiredAt(now));
    assert multiset(Seqs.Filter(locks, NotExpiredAt(now)))[l] == multiset(locks)[l];
    ReleaseKeepsConsistent(flights, locks, now);
    LockedSeatUnavailable(ReleaseAll(flights, Seqs.Filter(locks, ExpiredAt(now))),
                          Seqs.Filter(locks, NotExpiredAt(now)), l, now);
  }

  // ---------------------------------------------------------------------
  // Flight type and sorting.

  const ConnectingType: string := "Connecting"
  const DirectType: string := "Direct"

  predicate HasConnections(f: Flight) {
    f.connectingFlights.Some? && f.connectingFlights.value != []
  }

  /** `determineFlightType`: "Connecting" exactly when the list of
      connecting flights is present and non-empty; nothing else changes. */
  function DetermineFlightType(f: Flight): (r: Flight)
    ensures r.(flightType := f.flightType) == f
    ensures r.flightType == ConnectingType <==> HasConnections(f)
    ensures r.flightType == ConnectingType || r.flightType == DirectType
  {
    f.(flightType := if HasConnections(f) then ConnectingType else DirectType)
  }

  function TypedAll(found: seq<Flight>): (r: seq<Flight>)
    ensures |r| == |found| && forall i :: 0 <= i < |r| ==> r[i] == DetermineFlightType(found[i])
  {
    seq(|found|, i requires 0 <= i < |found| => DetermineFlightType(found[i]))
  }

  /** The orders `searchFlights` can sort by. */
  datatype SortBy = Cheapest | Fastest | Earliest | Latest | Best

  const CheapestName: string := "cheapest"
  const FastestName: string := "fastest"
  const EarliestName: string := "earliest"
  const LatestName: string := "latest"

  /** The switch on `sortBy.toLowerCase()`: the four names, in any letter
      case, pick their order, and everything else ("best" included) picks
      the combined order. */
  function ParseSortBy(sortBy: string): (r: SortBy)
    ensures r == Cheapest <==> Text.ToLower(sortBy) == CheapestName
    ensures r == Fastest <==> Text.ToLower(sortBy) == FastestName
    ensures r == Earliest <==> Text.ToLower(sortBy) == EarliestName
    ensures r == Latest <==> Text.ToLower(sortBy) == LatestName
  {
    var name := Text.ToLower(sortBy);
    if name == CheapestName then Cheapest
    else if name == FastestName then Fastest
    else if name == EarliestName then Earliest
    else if name == LatestName then Latest
    else Best
  }

  /** The sort key: one field for the single orders; price, then duration,
      then departure for the combined one. */
  function SortKey(order: SortBy, f: Flight): (int, int, int) {
    match order
    case Cheapest => (f.price, 0, 0)
    case Fastest => (f.durationMinutes, 0, 0)
    case Earliest => (f.departureTime, 0, 0)
    case Latest => (f.arrivalTime, 0, 0)
    case Best => (f.price, f.durationMinutes, f.departureTime)
  }

  /** The comparator: `a` sorts strictly before `b`. */
  predicate Before(order: SortBy, a: Flight, b: Flight) {
    var ka, kb := SortKey(order, a), SortKey(order, b);
    ka.0 < kb.0 || (ka.0 == kb.0 && (ka.1 < kb.1 || (ka.1 == kb.1 && ka.2 < kb.2)))
  }

  /** The comparator ties `a` with `x`. */
  function Tied(order: SortBy, x: Flight): Flight -> bool {
    (a: Flight) => SortKey(order, a) == SortKey(order, x)
  }

  predicate Sorted(order: SortBy, s: seq<Flight>) {
    forall i, j :: 0 <= i < j < |s| ==> !Before(order, s[j], s[i])
  }

  /** Stability: the flights of each tie class appear in the same relative
      order in `sorted` as in `s`. */
  ghost predicate StableFrom(order: SortBy, s: seq<Flight>, sorted: seq<Flight>) {
    forall x: Flight :: Seqs.Filter(sorted, Tied(order, x)) == Seqs.Filter(s, Tied(order, x))
  }

  /** A stable reordering is a permutation. */
  lemma StableIsPermutation(order: SortBy, s: seq<Flight>, sorted: seq<Flight>)
    requires StableFrom(order, s, sorted)
    ensures multiset(sorted) == multiset(s)
  {
    forall x: Flight
      ensures multiset(sorted)[x] == multiset(s)[x]
    {
      assert Tied(order, x)(x);
      Seqs.FilterCount(sorted, Tied(order, x));
      Seqs.FilterCount(s, Tied(order, x));
      assert multiset(Seqs.Filter(sorted, Tied(order, x)))[x] == multiset(Seqs.Filter(s, Tied(order, x)))[x];
    }
  }

  /** Inserting `x` after the flights that do not sort after it and before
      those that do keeps the list sorted. */
  lemma InsertSorted(order: SortBy, r: seq<Flight>, j: int, x: Flight)
    requires Sorted(order, r) && 0 <= j <= |r|
    requires forall k :: j <= k < |r| ==> Before(order, x, r[k])
    requires j > 0 ==> !Before(order, x, r[j - 1])
    ensures Sorted(order, r[..j] + [x] + r[j..])
  {
    var s := r[..j] + [x] + r[j..];
    forall a, b | 0 <= a < b < |s|
      ensures !Before(order, s[b], s[a])
    {
      if b < j {
        assert s[a] == r[a] && s[b] == r[b];
      } else if b == j {
        assert s[a] == r[a];
        assert !Before(order, r[j - 1], r[a]);
      } else if a == j {
        assert s[b] == r[b - 1];
      } else if a < j {
        assert s[a] == r[a] && s[b] == r[b - 1];
        assert !Before(order, r[j - 1], r[a]);
      } else {
        assert s[a] == r[a - 1] && s[b] == r[b - 1];
      }
    }
  }

  /** The same insertion appends `x` to its own tie class and leaves every
      other tie class as it was. */
  lemma InsertStable(order: SortBy, r: seq<Flight>, j: int, x: Flight, y: Flight)
    requires 0 <= j <= |r|
    requires forall k :: j <= k < |r| ==> Before(order, x, r[k])
    ensures Seqs.Filter(r[..j] + [x] + r[j..], Tied(order, y)) ==
      Seqs.Filter(r, Tied(order, y)) + (if Tied(order, y)(x) then [x] else [])
  {
    if Tied(order, y)(x) {
      forall k | j <= k < |r|
        ensures !Tied(order, y)(r[k])
      {
        assert Before(order, x, r[k]);
      }
    }
    Seqs.FilterInsert(r, j, x, Tied(order, y));
  }

  /** `flights.sort(comparator)`: a stable sort, here by insertion. */
  method SortFlights(flights: seq<Flight>, order: SortBy) returns (sorted: seq<Flight>)
    ensures Sorted(order, sorted)
    ensures StableFrom(order, flights, sorted)
    ensures multiset(sorted) == multiset(flights)
  {
    sorted := [];
    for i := 0 to |flights|
      invariant Sorted(order, sorted)
      invariant StableFrom(order, flights[..i], sorted)
    {
      var x := flights[i];
      var j := |sorted|;
      while j > 0 && Before(order, x, sorted[j - 1])
        invariant 0 <= j <= |sorted|
        invariant forall k :: j <= k < |sorted| ==> Before(order, x, sorted[k])
      {
        j := j - 1;
      }
      InsertSorted(order, sorted, j, x);
      Seqs.TakeSnoc(flights, i);
      forall y: Flight
        ensures Seqs.Filter(sorted[..j] + [x] + sorted[j..], Tied(order, y)) == Seqs.Filter(flights[..i + 1], Tied(order, y))
      {
        InsertStable(order, sorted, j, x, y);
        Seqs.FilterSnoc(flights[..i], x, Tied(order, y));
      }
      sorted := sorted[..j] + [x] + sorted[j..];
    }
    Seqs.TakeAll(flights);
    StableIsPermutation(order, flights, sorted);
  }
}
