/** The booking lifecycle (backend/src/main/java/com/flight/service/BookingService.java).
    The booking repository is a map from booking id to booking, the flight
    repository a map from flight id to flight, and every confirmation mail
    handed to the mailer is appended to `mails`. Ids the repository assigns
    are numbers here. The random PNR draw is a nondeterministic choice, and
    whether the mailer throws is the `mailerFails` parameter. */
module Bookings {
  import opened Wrappers
  import opened Entities

  const Letters: string := "ABCDEFGHIJKLMNOPQRSTUVWXYZ"
  const Digits: string := "0123456789"
  /** The 36 characters `generatePNR` draws from. */
  const PnrCharacters: string := Letters + Digits
  const PnrLength: nat := 6

  const PendingStatus: string := "Pending"
  const ConfirmedStatus: string := "Confirmed"
  const CancelledStatus: string := "Cancelled"
  const SubjectPrefix: string := "Booking Confirmation - PNR: "

  /** A passenger, as far as the booking service reads one: the email,
      `None` when null. */
  datatype Passenger = Passenger(email: Option<string>)

  datatype Booking = Booking(
    pnr: string,
    userId: string,
    flightId: string,
    passengerDetails: Option<seq<Passenger>>,
    seats: seq<string>,
    totalPrice: int,
    bookingStatus: string,
    paymentId: Option<string>)

  /** A confirmation mail: the address and the subject line. */
  datatype Mail = Mail(to: string, subject: string)

  lemma LetterAt(i: int)
    requires 0 <= i < |Letters|
    ensures Letters[i] == ('A' as int + i) as char
  {
  }

  lemma DigitAt(i: int)
    requires 0 <= i < |Digits|
    ensures Digits[i] == ('0' as int + i) as char
  {
  }

  /** The characters a PNR is drawn from are exactly the capital letters
      and the decimal digits. */
  lemma PnrCharactersAreAlphanumeric(c: char)
    ensures c in PnrCharacters <==> ('A' <= c <= 'Z' || '0' <= c <= '9')
  {
    if c in PnrCharacters {
      PnrCharacterIsAlphanumeric(c);
    }
    if 'A' <= c <= 'Z' || '0' <= c <= '9' {
      AlphanumericIsPnrCharacter(c);
    }
  }

  lemma PnrCharacterIsAlphanumeric(c: char)
    requires c in PnrCharacters
    ensures 'A' <= c <= 'Z' || '0' <= c <= '9'
  {
    var i :| 0 <= i < |PnrCharacters| && PnrCharacters[i] == c;
    if i < |Letters| {
      LetterAt(i);
    } else {
      assert PnrCharacters[i] == Digits[i - |Letters|];
      DigitAt(i - |Letters|);
    }
  }

  lemma AlphanumericIsPnrCharacter(c: char)
    requires 'A' <= c <= 'Z' || '0' <= c <= '9'
    ensures c in PnrCharacters
  {
    if 'A' <= c <= 'Z' {
      LetterAt(c as int - 'A' as int);
      assert PnrCharacters[c as int - 'A' as int] == c;
    } else {
      DigitAt(c as int - '0' as int);
      assert PnrCharacters[|Letters| + (c as int - '0' as int)] == c;
    }
  }

  predicate IsPnr(pnr: string) {
    |pnr| == PnrLength && forall i :: 0 <= i < |pnr| ==> pnr[i] in PnrCharacters
  }

  /** The mail `sendBookingConfirmationEmail` hands over: one exactly when
      the passenger list is present and non-empty and the first passenger
      has a non-empty email, to that address, with the PNR in the subject. */
  function ConfirmationMail(b: Booking): (m: Option<Mail>)
    ensures m.Some? <==>
      && b.passengerDetails.Some? && b.passengerDetails.value != []
      && b.passengerDetails.value[0].email.Some? && b.passengerDetails.value[0].email.value != ""
    ensures m.Some? ==> m.value.to == b.passengerDetails.value[0].email.value
    ensures m.Some? ==> m.value.subject == SubjectPrefix + b.pnr
  {
    var email := if b.passengerDetails.Some? && b.passengerDetails.value != [] then b.passengerDetails.value[0].email else Some("");
    if email.Some? && email.value != "" then Some(Mail(email.value, SubjectPrefix + b.pnr)) else None
  }

  /** The repositories `confirmBooking` and `cancelBooking` act on. */
  datatype Store = Store(bookings: map<nat, Booking>, flights: map<string, Flight>)

  /** `confirmBooking` on the repositories: an unknown id changes nothing and
      gives `None`; otherwise the booking becomes "Confirmed" with the
      payment id, whatever its status was, and its flight, if there is one,
      loses as many available seats as the booking holds. */
  function Confirm(s: Store, bookingId: nat, paymentId: string): (res: (Store, Option<Booking>))
    ensures bookingId !in s.bookings ==> res == (s, None)
    ensures bookingId in s.bookings ==>
      var b := s.bookings[bookingId];
      && res.1 == Some(b.(bookingStatus := ConfirmedStatus, paymentId := Some(paymentId)))
      && res.0.bookings == s.bookings[bookingId := res.1.value]
      && res.0.flights.Keys == s.flights.Keys
      && (forall f :: f in s.flights && f != b.flightId ==> res.0.flights[f] == s.flights[f])
      && (b.flightId in s.flights ==>
            res.0.flights[b.flightId].availableSeats == s.flights[b.flightId].availableSeats - |b.seats|
            && res.0.flights[b.flightId] == s.flights[b.flightId].(availableSeats := res.0.flights[b.flightId].availableSeats))
  {
    if bookingId !in s.bookings then (s, None)
    else
      var b := s.bookings[bookingId];
      var confirmed := b.(bookingStatus := ConfirmedStatus, paymentId := Some(paymentId));
      var flights :=
        if b.flightId in s.flights
        then s.flights[b.flightId := s.flights[b.flightId].(availableSeats := s.flights[b.flightId].availableSeats - |b.seats|)]
        else s.flights;
      (Store(s.bookings[bookingId := confirmed], flights), Some(confirmed))
  }

  /** `cancelBooking` on the repositories: the booking becomes "Cancelled";
      no seat goes back to the flight. */
  function Cancel(s: Store, bookingId: nat): (res: (Store, Option<Booking>))
    ensures bookingId !in s.bookings ==> res == (s, None)
    ensures bookingId in s.bookings ==>
      && res.1 == Some(s.bookings[bookingId].(bookingStatus := CancelledStatus))
      && res.0 == s.(bookings := s.bookings[bookingId := res.1.value])
  {
    if bookingId !in s.bookings then (s, None)
    else
      var cancelled := s.bookings[bookingId].(bookingStatus := CancelledStatus);
      (s.(bookings := s.bookings[bookingId := cancelled]), Some(cancelled))
  }

  /** There is no status guard: confirming the same booking twice takes its
      seats off the flight twice. */
  lemma ConfirmTwiceDecrementsTwice(s: Store, bookingId: nat, p1: string, p2: string)
    requires bookingId in s.bookings && s.bookings[bookingId].flightId in s.flights
    ensures var b := s.bookings[bookingId];
      var s2 := Confirm(Confirm(s, bookingId, p1).0, bookingId, p2).0;
      s2.flights[b.flightId].availableSeats == s.flights[b.flightId].availableSeats - 2 * |b.seats|
  {
    var b := s.bookings[bookingId];
    var s1 := Confirm(s, bookingId, p1).0;
    assert s1.bookings[bookingId].flightId == b.flightId && s1.bookings[bookingId].seats == b.seats;
  }

  /** Cancelling gives no seats back, and a cancelled booking can still be
      confirmed, which takes its seats off the flight again. */
  lemma CancelThenConfirm(s: Store, bookingId: nat, p: string)
    requires bookingId in s.bookings && s.bookings[bookingId].flightId in s.flights
    ensures Cancel(s, bookingId).0.flights == s.flights
    ensures var b := s.bookings[bookingId];
      var s2 := Confirm(Cancel(s, bookingId).0, bookingId, p);
      && s2.1.value.bookingStatus == ConfirmedStatus
      && s2.0.flights[b.flightId].availableSeats == s.flights[b.flightId].availableSeats - |b.seats|
  {
    var s1 := Cancel(s, bookingId).0;
    assert s1.bookings[bookingId].flightId == s.bookings[bookingId].flightId;
    assert s1.bookings[bookingId].seats == s.bookings[bookingId].seats;
  }

  class BookingService {
    var bookings: map<nat, Booking>
    var flights: map<string, Flight>
    var mails: seq<Mail>
    /** The next id the booking repository hands out. */
    var nextId: nat

    ghost predicate Valid()
      reads this
    {
      forall id :: id in bookings ==> id < nextId
    }

    constructor (flights: map<string, Flight>)
      ensures Valid()
      ensures bookings == map[] && this.flights == flights && mails == []
    {
      bookings := map[];
      this.flights := flights;
      mails := [];
      nextId := 0;
    }

    /** `generatePNR`: six characters, each drawn from `PnrCharacters`. */
    method GeneratePnr() returns (pnr: string)
      ensures IsPnr(pnr)
    {
      pnr := "";
      for i := 0 to PnrLength
        invariant |pnr| == i
        invariant forall j :: 0 <= j < i ==> pnr[j] in PnrCharacters
      {
        var k :| 0 <= k < |PnrCharacters|;
        pnr := pnr + [PnrCharacters[k]];
      }
    }

    /** `createBooking`: a new "Pending" booking with a fresh PNR and no
        payment, stored under a fresh id. */
    method CreateBooking(userId: string, flightId: string, passengers: Option<seq<Passenger>>,
                         seatNumbers: seq<string>, totalPrice: int)
      returns (id: nat, booking: Booking)
      requires Valid()
      modifies this
      ensures Valid()
      ensures id !in old(bookings) && bookings == old(bookings)[id := booking]
      ensures booking == Booking(booking.pnr, userId, flightId, passengers, seatNumbers, totalPrice, PendingStatus, None)
      ensures IsPnr(booking.pnr)
      ensures flights == old(flights) && mails == old(mails)
    {
      var pnr := GeneratePnr();
      booking := Booking(pnr, userId, flightId, passengers, seatNumbers, totalPrice, PendingStatus, None);
      id := nextId;
      bookings := bookings[id := booking];
      nextId := nextId + 1;
    }

    /** `sendBookingConfirmationEmail`: the mail, if there is one to send, is
        handed to the mailer; a mailer that throws is ignored. */
    method SendConfirmation(b: Booking, mailerFails: bool)
      modifies this
      ensures mails == old(mails) + (if ConfirmationMail(b).Some? && !mailerFails then [ConfirmationMail(b).value] else [])
      ensures bookings == old(bookings) && flights == old(flights) && nextId == old(nextId)
    {
      var m := ConfirmationMail(b);
      if m.Some? && !mailerFails {
        mails := mails + [m.value];
      }
    }

    /** `confirmBooking`. The booking returned does not depend on the
        mailer. */
    method ConfirmBooking(bookingId: nat, paymentId: string, mailerFails: bool) returns (result: Option<Booking>)
      requires Valid()
      modifies this
      ensures Valid()
      ensures var res := Confirm(old(Store(bookings, flights)), bookingId, paymentId);
        Store(bookings, flights) == res.0 && result == res.1
      ensures result.None? ==> mails == old(mails)
      ensures nextId == old(nextId)
      ensures result.Some? ==>
        mails == old(mails) + (if ConfirmationMail(result.value).Some? && !mailerFails then [ConfirmationMail(result.value).value] else [])
    {
      if bookingId !in bookings {
        return None;
      }
      var b := bookings[bookingId];
      var confirmed := b.(bookingStatus := ConfirmedStatus, paymentId := Some(paymentId));
      if b.flightId in flights {
        var flight := flights[b.flightId];
        flights := flights[b.flightId := flight.(availableSeats := flight.availableSeats - |b.seats|)];
      }
      SendConfirmation(confirmed, mailerFails);
      bookings := bookings[bookingId := confirmed];
      result := Some(confirmed);
    }

    /** `cancelBooking`. */
    method CancelBooking(bookingId: nat) returns (result: Option<Booking>)
      requires Valid()
      modifies this
      ensures Valid()
      ensures var res := Cancel(old(Store(bookings, flights)), bookingId);
        Store(bookings, flights) == res.0 && result == res.1
      ensures mails == old(mails) && nextId == old(nextId)
    {
      if bookingId !in bookings {
        return None;
      }
      var cancelled := bookings[bookingId].(bookingStatus := CancelledStatus);
      bookings := bookings[bookingId := cancelled];
      result := Some(cancelled);
    }
  }
}
