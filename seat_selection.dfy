/** The seat-hold page of frontend/src/pages/SeatSelection.jsx: the seat list
    loaded from the server, the client's ordered selection, the lock
    countdowns, and the timers that drive them. Browser timers are explicit:
    `Expire` is the two-minute timeout firing and `Tick` one beat of a
    countdown interval. The lock and unlock calls to the server are recorded
    in `requests`, and whether the call succeeded is a parameter. */
module SeatSelection {
  import opened Wrappers
  import opened Text
  import Js
  import Seqs

  /** The cabin classes the page distinguishes. */
  datatype SeatType = First | Business | Premium | Economy

  /** A seat as the server sends it; `currentPrice` may be `null`. */
  datatype ApiSeat = ApiSeat(
    seatNumber: string, seatClass: string, status: string,
    currentPrice: Option<int>, basePrice: int, row: int, column: string)

  /** A seat as the page keeps it. */
  datatype Seat = Seat(
    id: string, kind: SeatType, available: bool, status: string,
    price: int, row: int, column: string)

  /** An entry of a price push: the seat number and its two prices. */
  datatype PricedSeat = PricedSeat(seatNumber: string, currentPrice: Option<int>, basePrice: int)

  const AvailableStatus: string := "Available"
  const LockedStatus: string := "Temporarily Locked"

  /** The client-side lock lifetime, in seconds: the server's two minutes. */
  const LockDuration: int := 120

  // ---------------------------------------------------------------------
  // Loading

  /** `currentPrice || basePrice`: a missing or zero current price falls
      back to the base price. */
  function PriceOf(currentPrice: Option<int>, basePrice: int): (p: int)
    ensures currentPrice.Some? && currentPrice.value != 0 ==> p == currentPrice.value
    ensures currentPrice.None? || currentPrice.value == 0 ==> p == basePrice
  {
    if currentPrice.Some? && currentPrice.value != 0 then currentPrice.value else basePrice
  }

  /** The cabin class: the first of "first", "business", "premium" that the
      lower-cased class name contains, and economy otherwise. */
  function Classify(seatClass: string): (k: SeatType)
    ensures k == First <==> Contains(ToLower(seatClass), "first")
    ensures k == Business <==> !Contains(ToLower(seatClass), "first") && Contains(ToLower(seatClass), "business")
    ensures k == Premium <==>
      !Contains(ToLower(seatClass), "first") && !Contains(ToLower(seatClass), "business")
      && Contains(ToLower(seatClass), "premium")
  {
    var c := ToLower(seatClass);
    if Contains(c, "first") then First
    else if Contains(c, "business") then Business
    else if Contains(c, "premium") then Premium
    else Economy
  }

  /** The transformation applied to every loaded seat. */
  function TransformSeat(s: ApiSeat): (r: Seat)
    ensures r.id == s.seatNumber && r.status == s.status
    ensures r.available <==> s.status == AvailableStatus
    ensures r.kind == Classify(s.seatClass)
    ensures r.price == PriceOf(s.currentPrice, s.basePrice)
    ensures r.row == s.row && r.column == s.column
  {
    Seat(s.seatNumber, Classify(s.seatClass), s.status == AvailableStatus, s.status,
         PriceOf(s.currentPrice, s.basePrice), s.row, s.column)
  }

  function TransformSeats(api: seq<ApiSeat>): (r: seq<Seat>)
    ensures |r| == |api|
    ensures forall i :: 0 <= i < |api| ==> r[i] == TransformSeat(api[i])
  {
    seq(|api|, i requires 0 <= i < |api| => TransformSeat(api[i]))
  }

  /** A loaded seat is free for the page exactly when the server says
      "Available"; any price the server sends that is not zero wins. */
  lemma LoadedSeat(s: ApiSeat)
    ensures TransformSeat(s).available <==> s.status == "Available"
    ensures s.currentPrice == Some(0) ==> TransformSeat(s).price == s.basePrice
    ensures Contains(ToLower(s.seatClass), "first") ==> TransformSeat(s).kind == First
  {
  }

  // ---------------------------------------------------------------------
  // Seat lookups and updates

  function IdIs(id: string): Seat -> bool {
    (s: Seat) => s.id == id
  }

  /** `seats.find(s => s.id === id)` is a seat that is still available. */
  predicate Selectable(seats: seq<Seat>, id: string) {
    var i := Seqs.FindIndex(seats, IdIs(id));
    i >= 0 && seats[i].available
  }

  /** The status (and availability flag) of every seat with the id is
      replaced; every other seat is kept. */
  function SetStatus(seats: seq<Seat>, id: string, status: string, available: bool): (r: seq<Seat>)
    ensures |r| == |seats|
    ensures forall i :: 0 <= i < |seats| && seats[i].id == id ==>
      r[i] == seats[i].(status := status, available := available)
    ensures forall i :: 0 <= i < |seats| && seats[i].id != id ==> r[i] == seats[i]
  {
    seq(|seats|, i requires 0 <= i < |seats| =>
      if seats[i].id == id then seats[i].(status := status, available := available) else seats[i])
  }

  /** A seat-status push: `available` follows whether the new status is
      "Available". */
  function ApplyStatus(seats: seq<Seat>, seatNumber: string, status: string): seq<Seat> {
    SetStatus(seats, seatNumber, status, status == AvailableStatus)
  }

  /** A status push touches only the status and availability of the named
      seat; ids, classes and prices stay, and an unknown seat number changes
      nothing. */
  lemma ApplyStatusFrame(seats: seq<Seat>, seatNumber: string, status: string)
    ensures |ApplyStatus(seats, seatNumber, status)| == |seats|
    ensures forall i :: 0 <= i < |seats| ==>
      var r := ApplyStatus(seats, seatNumber, status)[i];
      r.id == seats[i].id && r.kind == seats[i].kind && r.price == seats[i].price
      && (seats[i].id == seatNumber ==> r.status == status && (r.available <==> status == "Available"))
      && (seats[i].id != seatNumber ==> r == seats[i])
    ensures (forall i :: 0 <= i < |seats| ==> seats[i].id != seatNumber) ==>
      ApplyStatus(seats, seatNumber, status) == seats
  {
  }

  function NumberIs(id: string): PricedSeat -> bool {
    (p: PricedSeat) => p.seatNumber == id
  }

  /** A price push: each seat listed in the payload (its first entry) takes
      `currentPrice || basePrice`; a payload without a seat list is ignored. */
  function ApplyPrices(seats: seq<Seat>, update: Option<seq<PricedSeat>>): (r: seq<Seat>)
    ensures |r| == |seats|
    ensures update.None? ==> r == seats
    ensures update.Some? ==> forall i :: 0 <= i < |seats| ==>
      var j := Seqs.FindIndex(update.value, NumberIs(seats[i].id));
      r[i] == if j < 0 then seats[i]
              else seats[i].(price := PriceOf(update.value[j].currentPrice, update.value[j].basePrice))
  {
    if update.None? then seats
    else
      seq(|seats|, i requires 0 <= i < |seats| =>
        var j := Seqs.FindIndex(update.value, NumberIs(seats[i].id));
        if j < 0 then seats[i]
        else seats[i].(price := PriceOf(update.value[j].currentPrice, update.value[j].basePrice)))
  }

  /** A price push changes prices only: a seat not listed keeps its price,
      and no status, class or id changes. */
  lemma ApplyPricesFrame(seats: seq<Seat>, update: seq<PricedSeat>, i: int)
    requires 0 <= i < |seats|
    ensures var r := ApplyPrices(seats, Some(update))[i];
      r.id == seats[i].id && r.status == seats[i].status && r.available == seats[i].available
      && r.kind == seats[i].kind
    ensures (forall j :: 0 <= j < |update| ==> update[j].seatNumber != seats[i].id) ==>
      ApplyPrices(seats, Some(update))[i] == seats[i]
  {
  }

  /** The toggle guard blocks a seat this client has just locked: once the
      lock marks it unavailable, the page will not toggle it again. */
  lemma LockedSeatNotSelectable(seats: seq<Seat>, id: string)
    ensures !Selectable(SetStatus(seats, id, LockedStatus, false), id)
  {
    var r := SetStatus(seats, id, LockedStatus, false);
    var i := Seqs.FindIndex(r, IdIs(id));
    if i >= 0 {
      assert r[i].id == id;
      assert seats[i].id == id;
      assert !r[i].available;
    }
  }

  // ---------------------------------------------------------------------
  // Derived views

  /** The price of the first seat with the id, or 0 when there is none. */
  function PriceById(seats: seq<Seat>, id: string): int {
    var i := Seqs.FindIndex(seats, IdIs(id));
    if i < 0 then 0 else seats[i].price
  }

  /** The selection total: `reduce` adding each selected seat's current
      price, 0 for an id the seat list does not have. */
  function Total(seats: seq<Seat>, selected: seq<string>): int
    decreases |selected|
  {
    if selected == [] then 0
    else Total(seats, selected[..|selected| - 1]) + PriceById(seats, selected[|selected| - 1])
  }

  /** The total of a selection is the totals of its parts added up. */
  lemma {:induction false} TotalAppend(seats: seq<Seat>, a: seq<string>, b: seq<string>)
    ensures Total(seats, a + b) == Total(seats, a) + Total(seats, b)
    decreases |b|
  {
    if b == [] {
      assert a + b == a;
    } else {
      var b' := b[..|b| - 1];
      assert (a + b)[..|a + b| - 1] == a + b';
      assert (a + b)[|a + b| - 1] == b[|b| - 1];
      TotalAppend(seats, a, b');
    }
  }

  /** A total over seats with non-negative prices is non-negative, and ids
      the list does not hold add nothing. */
  lemma {:induction false} TotalBounds(seats: seq<Seat>, selected: seq<string>)
    requires forall i :: 0 <= i < |seats| ==> seats[i].price >= 0
    ensures Total(seats, selected) >= 0
    ensures (forall k, i :: 0 <= k < |selected| && 0 <= i < |seats| ==> seats[i].id != selected[k]) ==>
      Total(seats, selected) == 0
    decreases |selected|
  {
    if selected != [] {
      TotalBounds(seats, selected[..|selected| - 1]);
    }
  }

  /** `formatCountdown(seconds)`: whole minutes, a colon, and the seconds
      padded to two digits when below ten. */
  function FormatCountdown(seconds: int): string {
    var mins := Js.FloorDiv(seconds, 60);
    var secs := Js.Rem(seconds, 60);
    IntToString(mins) + ":" + (if secs < 10 then "0" else "") + IntToString(secs)
  }

  /** For a non-negative count the text reads back: the minutes before the
      colon and exactly two digits of leftover seconds after it. */
  lemma FormatCountdownReadsBack(seconds: int)
    requires seconds >= 0
    ensures exists r: string ::
      && FormatCountdown(seconds) == NatToString(seconds / 60) + ":" + r
      && |r| == 2 && AllDigits(r) && ParseNat(r) == seconds % 60
  {
    var secs := seconds % 60;
    assert Js.FloorDiv(seconds, 60) == seconds / 60 && Js.Rem(seconds, 60) == secs;
    var r := (if secs < 10 then "0" else "") + NatToString(secs);
    assert FormatCountdown(seconds) == NatToString(seconds / 60) + ":" + r;
    ParseNatToString(secs);
    if secs < 10 {
      assert r[..1] == "0";
      assert ParseNat(r) == ParseNat("0") * 10 + secs;
    } else {
      assert NatToString(secs) == NatToString(secs / 10) + [DigitChar(secs % 10)];
    }
  }

  // ---------------------------------------------------------------------
  // Grouping by cabin class and row

  function KindIs(k: SeatType): Seat -> bool {
    (s: Seat) => s.kind == k
  }

  function RowIs(row: int): Seat -> bool {
    (s: Seat) => s.row == row
  }

  /** The `grouped` object: one entry per cabin class. */
  datatype ByClass<T> = ByClass(first: T, business: T, premium: T, economy: T) {
    function Get(k: SeatType): T {
      match k
      case First => first
      case Business => business
      case Premium => premium
      case Economy => economy
    }

    function Put(k: SeatType, v: T): (r: ByClass<T>)
      ensures r.Get(k) == v && forall j :: j != k ==> r.Get(j) == Get(j)
    {
      match k
      case First => this.(first := v)
      case Business => this.(business := v)
      case Premium => this.(premium := v)
      case Economy => this.(economy := v)
    }
  }

  /** The cell of class `k` and row `row` that grouping builds. */
  function Cell(seats: seq<Seat>, k: SeatType, row: int): seq<Seat> {
    Seqs.Filter(Seqs.Filter(seats, KindIs(k)), RowIs(row))
  }

  /** Every seat lies in exactly one cell: that of its own class and row. */
  lemma SeatInOneCell(seats: seq<Seat>, x: Seat, k: SeatType, row: int)
    requires x in seats
    ensures x in Cell(seats, k, row) <==> k == x.kind && row == x.row
  {
    var byKind := Seqs.Filter(seats, KindIs(k));
    var cell := Cell(seats, k, row);
    Seqs.FilterCount(seats, KindIs(k));
    Seqs.FilterCount(byKind, RowIs(row));
    assert multiset(seats)[x] > 0;
    if x in cell {
      var i :| 0 <= i < |cell| && cell[i] == x;
      assert multiset(byKind)[x] > 0;
    }
  }

  /** The rows the seats of a list sit in. */
  function RowsOf(list: seq<Seat>): set<int> {
    set x | x in list :: x.row
  }

  /** `rows[seat.row].push(seat)`, creating the row first when it is missing. */
  function AddToRow(rows: map<int, seq<Seat>>, seat: Seat): map<int, seq<Seat>> {
    rows[seat.row := (if seat.row in rows then rows[seat.row] else []) + [seat]]
  }

  /** `rows` groups `list` by row: one entry per occurring row, holding that
      row's seats in list order. */
  ghost predicate GroupsByRow(rows: map<int, seq<Seat>>, list: seq<Seat>) {
    && rows.Keys == RowsOf(list)
    && forall row :: row in rows ==> rows[row] == Seqs.Filter(list, RowIs(row))
  }

  lemma FilterRowAbsent(list: seq<Seat>, row: int)
    requires row !in RowsOf(list)
    ensures Seqs.Filter(list, RowIs(row)) == []
  {
    var f := Seqs.Filter(list, RowIs(row));
    Seqs.FilterCount(list, RowIs(row));
    forall x: Seat
      ensures multiset(f)[x] == 0
    {
      if x.row == row {
        assert x !in list;
      }
    }
    assert multiset(f) == multiset{};
  }

  lemma RowsOfSnoc(list: seq<Seat>, seat: Seat)
    ensures RowsOf(list + [seat]) == RowsOf(list) + {seat.row}
  {
    forall r
      ensures r in RowsOf(list + [seat]) <==> r in RowsOf(list) + {seat.row}
    {
      if r in RowsOf(list + [seat]) {
        var x :| x in list + [seat] && x.row == r;
      }
      if r in RowsOf(list) {
        var x :| x in list && x.row == r;
        assert x in list + [seat];
      }
      assert seat in list + [seat];
    }
  }

  /** Pushing the next seat keeps the grouping exact. */
  lemma AddToRowStep(rows: map<int, seq<Seat>>, list: seq<Seat>, seat: Seat)
    requires GroupsByRow(rows, list)
    ensures GroupsByRow(AddToRow(rows, seat), list + [seat])
  {
    RowsOfSnoc(list, seat);
    assert AddToRow(rows, seat).Keys == rows.Keys + {seat.row};
    AddToRowCells(rows, list, seat);
  }

  lemma {:induction false} AddToRowCells(rows: map<int, seq<Seat>>, list: seq<Seat>, seat: Seat)
    requires rows.Keys == RowsOf(list)
    requires forall row :: row in rows ==> rows[row] == Seqs.Filter(list, RowIs(row))
    ensures forall row :: row in AddToRow(rows, seat) ==>
      AddToRow(rows, seat)[row] == Seqs.Filter(list + [seat], RowIs(row))
  {
    if seat.row !in rows {
      FilterRowAbsent(list, seat.row);
    }
    forall row | row in AddToRow(rows, seat)
      ensures AddToRow(rows, seat)[row] == Seqs.Filter(list + [seat], RowIs(row))
    {
      Seqs.FilterSnoc(list, seat, RowIs(row));
    }
  }

  /** Grouping one class's seats by row, one seat at a time. */
  method GroupByRow(list: seq<Seat>) returns (rows: map<int, seq<Seat>>)
    ensures rows.Keys == RowsOf(list)
    ensures forall row :: row in rows ==> rows[row] == Seqs.Filter(list, RowIs(row))
  {
    rows := map[];
    var i := 0;
    while i < |list|
      invariant 0 <= i <= |list|
      invariant GroupsByRow(rows, list[..i])
    {
      AddToRowStep(rows, list[..i], list[i]);
      Seqs.TakeSnoc(list, i);
      rows := AddToRow(rows, list[i]);
      i := i + 1;
    }
    Seqs.TakeAll(list);
  }

  /** Pushing the next seat onto its class's list keeps every list the
      seats of its class, in order. */
  lemma GroupByClassStep(grouped: ByClass<seq<Seat>>, prefix: seq<Seat>, seat: Seat)
    requires forall k: SeatType :: grouped.Get(k) == Seqs.Filter(prefix, KindIs(k))
    ensures var next := grouped.Put(seat.kind, grouped.Get(seat.kind) + [seat]);
      forall k: SeatType :: next.Get(k) == Seqs.Filter(prefix + [seat], KindIs(k))
  {
    forall k: SeatType
      ensures Seqs.Filter(prefix + [seat], KindIs(k)) == Seqs.Filter(prefix, KindIs(k)) + (if k == seat.kind then [seat] else [])
    {
      Seqs.FilterSnoc(prefix, seat, KindIs(k));
    }
  }

  /** `groupSeatsByCabinClass()`: every seat is pushed onto the list of its
      class, in list order, and each class's list is then grouped by row. */
  method GroupSeatsByCabinClass(seats: seq<Seat>) returns (g: ByClass<map<int, seq<Seat>>>)
    ensures forall k: SeatType :: GroupsByRow(g.Get(k), Seqs.Filter(seats, KindIs(k)))
  {
    var grouped: ByClass<seq<Seat>> := ByClass([], [], [], []);
    var i := 0;
    while i < |seats|
      invariant 0 <= i <= |seats|
      invariant forall k: SeatType :: grouped.Get(k) == Seqs.Filter(seats[..i], KindIs(k))
    {
      var seat := seats[i];
      Seqs.TakeSnoc(seats, i);
      GroupByClassStep(grouped, seats[..i], seat);
      grouped := grouped.Put(seat.kind, grouped.Get(seat.kind) + [seat]);
      i := i + 1;
    }
    Seqs.TakeAll(seats);
    var f := GroupByRow(grouped.first);
    var b := GroupByRow(grouped.business);
    var p := GroupByRow(grouped.premium);
    var e := GroupByRow(grouped.economy);
    g := ByClass(f, b, p, e);
  }

  /** A row has an entry in a class's bucket exactly when some seat of that
      class sits in it. */
  lemma RowOccursInClass(seats: seq<Seat>, k: SeatType, row: int)
    ensures row in RowsOf(Seqs.Filter(seats, KindIs(k)))
      <==> exists i :: 0 <= i < |seats| && seats[i].kind == k && seats[i].row == row
  {
    var f := Seqs.Filter(seats, KindIs(k));
    Seqs.FilterCount(seats, KindIs(k));
    if row in RowsOf(f) {
      var x :| x in f && x.row == row;
      assert multiset(f)[x] > 0;
      assert KindIs(k)(x) && multiset(seats)[x] > 0;
      assert x in seats;
      var i :| 0 <= i < |seats| && seats[i] == x;
    }
    if exists i :: 0 <= i < |seats| && seats[i].kind == k && seats[i].row == row {
      var i :| 0 <= i < |seats| && seats[i].kind == k && seats[i].row == row;
      var x := seats[i];
      assert x in seats && KindIs(k)(x);
      assert multiset(f)[x] == multiset(seats)[x] > 0;
      assert x in f;
    }
  }

  // ---------------------------------------------------------------------
  // The page

  /** A call the page makes to the seat-lock endpoints. */
  datatype Request = LockRequest(seatId: string) | UnlockRequest(seatId: string)

  /** The browser's handles once `clearTimeout`/`clearInterval` has been
      called on the one recorded for the seat, if any. */
  function Cancel(running: map<nat, string>, recorded: map<string, nat>, seatId: string): map<nat, string> {
    if seatId in recorded then running - {recorded[seatId]} else running
  }

  class SeatSelectionPage {
    var seats: seq<Seat>
    var loadError: bool
    var selectedSeats: seq<string>
    /** `seatLockCountdowns`: seconds left per seat. */
    var countdowns: map<string, int>
    /** `seatLockTimers.current` and `countdownIntervals.current`: the
        handle last registered for each seat. */
    var timerIds: map<string, nat>
    var intervalIds: map<string, nat>
    /** The browser's pending timeouts and running intervals, by handle,
        with the seat each one was created for. */
    var pendingTimers: map<nat, string>
    var runningIntervals: map<nat, string>
    var nextHandle: nat
    var requests: seq<Request>

    /** Countdowns never show less than one second, and every handle the
        page holds was issued by the browser. */
    ghost predicate Valid()
      reads this
    {
      && (forall s :: s in countdowns ==> countdowns[s] >= 1)
      && (forall h :: h in pendingTimers ==> h < nextHandle)
      && (forall h :: h in runningIntervals ==> h < nextHandle)
    }

    /** The first render: nothing loaded, nothing selected. */
    constructor ()
      ensures Valid()
      ensures seats == [] && selectedSeats == [] && countdowns == map[] && requests == []
      ensures pendingTimers == map[] && runningIntervals == map[]
    {
      seats := [];
      loadError := false;
      selectedSeats := [];
      countdowns := map[];
      timerIds := map[];
      intervalIds := map[];
      pendingTimers := map[];
      runningIntervals := map[];
      nextHandle := 1;
      requests := [];
    }

    /** The load effect: the transformed seats, or an empty list and an
        error when the request failed (`None`). */
    method LoadSeats(response: Option<seq<ApiSeat>>)
      requires Valid()
      modifies this
      ensures Valid()
      ensures timerIds == old(timerIds) && intervalIds == old(intervalIds) && nextHandle == old(nextHandle)
      ensures response.Some? ==> seats == TransformSeats(response.value) && !loadError
      ensures response.None? ==> seats == [] && loadError
      ensures selectedSeats == old(selectedSeats) && countdowns == old(countdowns)
      ensures pendingTimers == old(pendingTimers) && runningIntervals == old(runningIntervals)
      ensures requests == old(requests)
    {
      if response.Some? {
        seats := TransformSeats(response.value);
        loadError := false;
      } else {
        seats := [];
        loadError := true;
      }
    }

    /** Cancels the seat's recorded timeout and interval and drops its
        countdown, as both `unlockSeat` and an "Available" push do. */
    method ForgetLock(seatId: string)
      requires Valid()
      modifies this
      ensures Valid()
      ensures loadError == old(loadError)
      ensures pendingTimers == Cancel(old(pendingTimers), old(timerIds), seatId)
      ensures runningIntervals == Cancel(old(runningIntervals), old(intervalIds), seatId)
      ensures timerIds == old(timerIds) - {seatId} && intervalIds == old(intervalIds) - {seatId}
      ensures countdowns == old(countdowns) - {seatId}
      ensures seats == old(seats) && selectedSeats == old(selectedSeats) && requests == old(requests)
      ensures nextHandle == old(nextHandle)
    {
      if seatId in timerIds {
        pendingTimers := pendingTimers - {timerIds[seatId]};
        timerIds := timerIds - {seatId};
      }
      if seatId in intervalIds {
        runningIntervals := runningIntervals - {intervalIds[seatId]};
        intervalIds := intervalIds - {seatId};
      }
      countdowns := countdowns - {seatId};
    }

    /** A seat-status push: the named seat takes the status; when the status
        is "Available" its lock timers and countdown go too. */
    method OnSeatUpdate(seatNumber: string, status: string)
      requires Valid()
      modifies this
      ensures Valid()
      ensures loadError == old(loadError)
      ensures seats == ApplyStatus(old(seats), seatNumber, status)
      ensures status == AvailableStatus ==>
        && countdowns == old(countdowns) - {seatNumber}
        && pendingTimers == Cancel(old(pendingTimers), old(timerIds), seatNumber)
        && runningIntervals == Cancel(old(runningIntervals), old(intervalIds), seatNumber)
        && timerIds == old(timerIds) - {seatNumber} && intervalIds == old(intervalIds) - {seatNumber}
      ensures status != AvailableStatus ==>
        && countdowns == old(countdowns) && timerIds == old(timerIds) && intervalIds == old(intervalIds)
        && pendingTimers == old(pendingTimers) && runningIntervals == old(runningIntervals)
      ensures selectedSeats == old(selectedSeats) && requests == old(requests) && nextHandle == old(nextHandle)
    {
      seats := ApplyStatus(seats, seatNumber, status);
      if status == AvailableStatus {
        ForgetLock(seatNumber);
      }
    }

    /** A price push. */
    method OnPriceUpdate(update: Option<seq<PricedSeat>>)
      requires Valid()
      modifies this
      ensures Valid()
      ensures loadError == old(loadError)
      ensures timerIds == old(timerIds) && intervalIds == old(intervalIds) && nextHandle == old(nextHandle)
      ensures seats == ApplyPrices(old(seats), update)
      ensures selectedSeats == old(selectedSeats) && countdowns == old(countdowns)
      ensures pendingTimers == old(pendingTimers) && runningIntervals == old(runningIntervals)
      ensures requests == old(requests)
    {
      seats := ApplyPrices(seats, update);
    }

    /** `lockSeat(seatId)`: asks the server; on failure nothing else happens
        and the result is false. On success a 120-second timeout and a
        one-second countdown interval are started for the seat, its
        countdown is set to 120, it is marked "Temporarily Locked" and
        unavailable, and the result is true. The selection is not touched. */
    method LockSeat(seatId: string, apiOk: bool) returns (locked: bool)
      requires Valid()
      modifies this
      ensures Valid()
      ensures loadError == old(loadError)
      ensures requests == old(requests) + [LockRequest(seatId)]
      ensures locked == apiOk
      ensures !apiOk ==>
        && seats == old(seats) && countdowns == old(countdowns)
        && pendingTimers == old(pendingTimers) && runningIntervals == old(runningIntervals)
        && timerIds == old(timerIds) && intervalIds == old(intervalIds) && nextHandle == old(nextHandle)
      ensures apiOk ==>
        && seats == SetStatus(old(seats), seatId, LockedStatus, false)
        && countdowns == old(countdowns)[seatId := LockDuration]
        && seatId in timerIds && timerIds[seatId] !in old(pendingTimers)
        && timerIds == old(timerIds)[seatId := timerIds[seatId]]
        && pendingTimers == old(pendingTimers)[timerIds[seatId] := seatId]
        && seatId in intervalIds && intervalIds[seatId] !in old(runningIntervals)
        && intervalIds == old(intervalIds)[seatId := intervalIds[seatId]]
        && runningIntervals == old(runningIntervals)[intervalIds[seatId] := seatId]
      ensures selectedSeats == old(selectedSeats)
    {
      requests := requests + [LockRequest(seatId)];
      if !apiOk {
        return false;
      }
      var timer := nextHandle;
      var interval := nextHandle + 1;
      assert timer !in pendingTimers && interval !in runningIntervals;
      nextHandle := nextHandle + 2;
      pendingTimers := pendingTimers[timer := seatId];
      timerIds := timerIds[seatId := timer];
      countdowns := countdowns[seatId := LockDuration];
      runningIntervals := runningIntervals[interval := seatId];
      intervalIds := intervalIds[seatId := interval];
      seats := SetStatus(seats, seatId, LockedStatus, false);
      locked := true;
    }

    /** `unlockSeat(seatId)`: asks the server; a failure is swallowed and
        changes nothing else. On success the seat's timers and countdown go
        and it is marked "Available" again. The selection is not touched. */
    method UnlockSeat(seatId: string, apiOk: bool)
      requires Valid()
      modifies this
      ensures Valid()
      ensures loadError == old(loadError)
      ensures requests == old(requests) + [UnlockRequest(seatId)]
      ensures !apiOk ==>
        && seats == old(seats) && countdowns == old(countdowns)
        && pendingTimers == old(pendingTimers) && runningIntervals == old(runningIntervals)
        && timerIds == old(timerIds) && intervalIds == old(intervalIds)
      ensures apiOk ==>
        && seats == SetStatus(old(seats), seatId, AvailableStatus, true)
        && countdowns == old(countdowns) - {seatId}
        && pendingTimers == Cancel(old(pendingTimers), old(timerIds), seatId)
        && runningIntervals == Cancel(old(runningIntervals), old(intervalIds), seatId)
        && timerIds == old(timerIds) - {seatId} && intervalIds == old(intervalIds) - {seatId}
      ensures selectedSeats == old(selectedSeats) && nextHandle == old(nextHandle)
    {
      requests := requests + [UnlockRequest(seatId)];
      if !apiOk {
        return;
      }
      ForgetLock(seatId);
      seats := SetStatus(seats, seatId, AvailableStatus, true);
    }

    /** `toggleSeat(seatId)`: ignored for an unknown or unavailable seat.
        A selected seat is unlocked and then leaves the selection whatever
        the unlock's outcome; an unselected one joins the selection only if
        the lock succeeded. */
    method ToggleSeat(seatId: string, apiOk: bool)
      requires Valid()
      modifies this
      ensures Valid()
      ensures loadError == old(loadError)
      ensures !Selectable(old(seats), seatId) || !apiOk ==>
        && countdowns == old(countdowns)
        && pendingTimers == old(pendingTimers) && runningIntervals == old(runningIntervals)
        && timerIds == old(timerIds) && intervalIds == old(intervalIds) && nextHandle == old(nextHandle)
      ensures !Selectable(old(seats), seatId) ==>
        && seats == old(seats) && selectedSeats == old(selectedSeats) && requests == old(requests)
      ensures Selectable(old(seats), seatId) && seatId in old(selectedSeats) ==>
        && requests == old(requests) + [UnlockRequest(seatId)]
        && selectedSeats == Seqs.Filter(old(selectedSeats), DiffersFrom(seatId))
        && seats == (if apiOk then SetStatus(old(seats), seatId, AvailableStatus, true) else old(seats))
      ensures Selectable(old(seats), seatId) && seatId in old(selectedSeats) && apiOk ==>
        && countdowns == old(countdowns) - {seatId}
        && pendingTimers == Cancel(old(pendingTimers), old(timerIds), seatId)
        && runningIntervals == Cancel(old(runningIntervals), old(intervalIds), seatId)
        && timerIds == old(timerIds) - {seatId} && intervalIds == old(intervalIds) - {seatId}
        && nextHandle == old(nextHandle)
      ensures Selectable(old(seats), seatId) && seatId !in old(selectedSeats) ==>
        && requests == old(requests) + [LockRequest(seatId)]
        && selectedSeats == (if apiOk then old(selectedSeats) + [seatId] else old(selectedSeats))
        && seats == (if apiOk then SetStatus(old(seats), seatId, LockedStatus, false) else old(seats))
      ensures Selectable(old(seats), seatId) && seatId !in old(selectedSeats) && apiOk ==>
        && countdowns == old(countdowns)[seatId := LockDuration]
        && seatId in timerIds && timerIds[seatId] !in old(pendingTimers)
        && timerIds == old(timerIds)[seatId := timerIds[seatId]]
        && pendingTimers == old(pendingTimers)[timerIds[seatId] := seatId]
        && seatId in intervalIds && intervalIds[seatId] !in old(runningIntervals)
        && intervalIds == old(intervalIds)[seatId := intervalIds[seatId]]
        && runningIntervals == old(runningIntervals)[intervalIds[seatId] := seatId]
    {
      var i := Seqs.FindIndex(seats, IdIs(seatId));
      if i < 0 || !seats[i].available {
        return;
      }
      if seatId in selectedSeats {
        UnlockSeat(seatId, apiOk);
        selectedSeats := Seqs.Filter(selectedSeats, DiffersFrom(seatId));
      } else {
        var locked := LockSeat(seatId, apiOk);
        if locked {
          selectedSeats := selectedSeats + [seatId];
        }
      }
    }

    /** One beat of the countdown interval `handle`: the seat's value (120
        when it has none) goes down by one while above one; at one or below
        the interval stops and the value stays. */
    method Tick(handle: nat)
      requires Valid() && handle in runningIntervals
      modifies this
      ensures Valid()
      ensures loadError == old(loadError)
      ensures timerIds == old(timerIds) && intervalIds == old(intervalIds) && nextHandle == old(nextHandle)
      ensures var seatId := old(runningIntervals)[handle];
        var current := if seatId in old(countdowns) then old(countdowns)[seatId] else LockDuration;
        && (current <= 1 ==> countdowns == old(countdowns) && runningIntervals == old(runningIntervals) - {handle})
        && (current > 1 ==> countdowns == old(countdowns)[seatId := current - 1] && runningIntervals == old(runningIntervals))
      ensures seats == old(seats) && selectedSeats == old(selectedSeats) && pendingTimers == old(pendingTimers)
      ensures requests == old(requests)
    {
      var seatId := runningIntervals[handle];
      var current := if seatId in countdowns then countdowns[seatId] else LockDuration;
      if current <= 1 {
        runningIntervals := runningIntervals - {handle};
      } else {
        countdowns := countdowns[seatId := current - 1];
      }
    }

    /** The 120-second timeout `handle` fires: it only calls `unlockSeat`, so
        the seat stays in the selection even when it is released. */
    method Expire(handle: nat, apiOk: bool)
      requires Valid() && handle in pendingTimers
      modifies this
      ensures Valid()
      ensures loadError == old(loadError)
      ensures requests == old(requests) + [UnlockRequest(old(pendingTimers)[handle])]
      ensures handle !in pendingTimers
      ensures selectedSeats == old(selectedSeats)
      ensures nextHandle == old(nextHandle)
      ensures var seatId := old(pendingTimers)[handle];
        var fired := old(pendingTimers) - {handle};
        && (apiOk ==>
          && seats == SetStatus(old(seats), seatId, AvailableStatus, true)
          && countdowns == old(countdowns) - {seatId}
          && pendingTimers == Cancel(fired, old(timerIds), seatId)
          && runningIntervals == Cancel(old(runningIntervals), old(intervalIds), seatId)
          && timerIds == old(timerIds) - {seatId} && intervalIds == old(intervalIds) - {seatId})
        && (!apiOk ==>
          && seats == old(seats) && countdowns == old(countdowns)
          && pendingTimers == fired && runningIntervals == old(runningIntervals)
          && timerIds == old(timerIds) && intervalIds == old(intervalIds))
    {
      var seatId := pendingTimers[handle];
      pendingTimers := pendingTimers - {handle};
      UnlockSeat(seatId, apiOk);
    }

    /** The subscription effect's cleanup, run before the effect runs again
        and on unmount: every recorded timeout and interval is cancelled and
        both records emptied; countdowns and seats are left as they are. */
    method Cleanup()
      requires Valid()
      modifies this
      ensures Valid()
      ensures loadError == old(loadError)
      ensures requests == old(requests) && nextHandle == old(nextHandle)
      ensures pendingTimers == old(pendingTimers) - old(timerIds).Values
      ensures runningIntervals == old(runningIntervals) - old(intervalIds).Values
      ensures timerIds == map[] && intervalIds == map[]
      ensures seats == old(seats) && selectedSeats == old(selectedSeats) && countdowns == old(countdowns)
    {
      pendingTimers := pendingTimers - timerIds.Values;
      runningIntervals := runningIntervals - intervalIds.Values;
      timerIds := map[];
      intervalIds := map[];
    }
  }

  function DiffersFrom(seatId: string): string -> bool {
    id => id != seatId
  }
}
