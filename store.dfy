/** The client's booking store (frontend/src/store/index.js). Every action
    builds a new state from the old one, so each is a function from state
    to state. */
module Store {
  import opened Wrappers
  import Js
  import Seqs

  /** A plain JavaScript object. */
  type Obj = map<string, Js.Value>

  datatype State = State(
    searchParams: Obj,
    selectedFlight: Option<Obj>,
    selectedSeats: seq<string>,
    passengerData: Obj,
    paymentData: Obj,
    loading: bool)

  /** The default search: empty airports and dates, one passenger, one way. */
  function DefaultSearchParams(): (p: Obj)
    ensures p.Keys == {"from", "to", "departure", "return", "passengers", "tripType"}
    ensures p["passengers"] == Js.Num(1) && p["tripType"] == Js.Str("one-way")
  {
    map["from" := Js.Str(""), "to" := Js.Str(""), "departure" := Js.Str(""), "return" := Js.Str(""),
        "passengers" := Js.Num(1), "tripType" := Js.Str("one-way")]
  }

  function Initial(): State {
    State(DefaultSearchParams(), None, [], map[], map[], false)
  }

  /** `setSearchParams(params)`: `{ ...searchParams, ...params }`. The keys
      of `params` win, every other key keeps its value, and nothing outside
      `searchParams` changes. */
  function SetSearchParams(s: State, params: Obj): (r: State)
    ensures r.searchParams.Keys == s.searchParams.Keys + params.Keys
    ensures forall k :: k in params ==> r.searchParams[k] == params[k]
    ensures forall k :: k in s.searchParams && k !in params ==> r.searchParams[k] == s.searchParams[k]
    ensures r.(searchParams := s.searchParams) == s
  {
    s.(searchParams := s.searchParams + params)
  }

  /** Merging twice is merging once with the second set of parameters laid
      over the first. */
  lemma SetSearchParamsTwice(s: State, p1: Obj, p2: Obj)
    ensures SetSearchParams(SetSearchParams(s, p1), p2) == SetSearchParams(s, p1 + p2)
  {
    assert s.searchParams + p1 + p2 == s.searchParams + (p1 + p2);
  }

  /** `clearSearchParams()`: back to exactly the defaults, whatever was merged
      in before; nothing else changes. */
  function ClearSearchParams(s: State): (r: State)
    ensures r.searchParams == Initial().searchParams
    ensures r.(searchParams := s.searchParams) == s
  {
    s.(searchParams := DefaultSearchParams())
  }

  lemma ClearUndoesSet(s: State, params: Obj)
    ensures ClearSearchParams(SetSearchParams(s, params)) == ClearSearchParams(s)
  {
  }

  /** `addSeat(seatId)`: appends, with no check for duplicates. */
  function AddSeat(s: State, seatId: string): (r: State)
    ensures |r.selectedSeats| == |s.selectedSeats| + 1
    ensures r.selectedSeats[..|s.selectedSeats|] == s.selectedSeats
    ensures r.selectedSeats[|s.selectedSeats|] == seatId
    ensures r.(selectedSeats := s.selectedSeats) == s
  {
    s.(selectedSeats := s.selectedSeats + [seatId])
  }

  /** `id !== seatId`. */
  function Differs(seatId: string): string -> bool {
    id => id != seatId
  }

  /** `removeSeat(seatId)`: filters out every occurrence of the seat. */
  function RemoveSeat(s: State, seatId: string): (r: State)
    ensures seatId !in r.selectedSeats
    ensures forall x :: x != seatId ==> multiset(r.selectedSeats)[x] == multiset(s.selectedSeats)[x]
    ensures r.(selectedSeats := s.selectedSeats) == s
  {
    var kept := Seqs.Filter(s.selectedSeats, Differs(seatId));
    Seqs.FilterCount(s.selectedSeats, Differs(seatId));
    assert multiset(kept)[seatId] == 0;
    s.(selectedSeats := kept)
  }

  /** Removal keeps the order of the remaining seats: removing from a
      selection split in two is removing from each part. */
  lemma RemoveSeatKeepsOrder(s: State, a: seq<string>, b: seq<string>, seatId: string)
    requires s.selectedSeats == a + b
    ensures RemoveSeat(s, seatId).selectedSeats ==
      RemoveSeat(s.(selectedSeats := a), seatId).selectedSeats + RemoveSeat(s.(selectedSeats := b), seatId).selectedSeats
  {
    Seqs.FilterAppend(a, b, Differs(seatId));
  }

  /** Adding a seat and then removing it leaves the selection as removing it
      alone would, however many times it was already selected. */
  lemma {:induction false} RemoveAfterAdd(s: State, seatId: string)
    ensures RemoveSeat(AddSeat(s, seatId), seatId) == RemoveSeat(s, seatId)
  {
    Seqs.FilterAppend(s.selectedSeats, [seatId], Differs(seatId));
    assert Seqs.Filter([seatId], Differs(seatId)) == [] by {
      assert [seatId][1..] == [];
    }
    assert Seqs.Filter(s.selectedSeats, Differs(seatId)) + [] == Seqs.Filter(s.selectedSeats, Differs(seatId));
  }

  /** Removing a seat that is not selected changes nothing. */
  lemma RemoveAbsentSeat(s: State, seatId: string)
    requires seatId !in s.selectedSeats
    ensures RemoveSeat(s, seatId) == s
  {
    Seqs.FilterAllKept(s.selectedSeats, Differs(seatId));
  }

  /** `clearSelectedSeats()`. */
  function ClearSelectedSeats(s: State): (r: State)
    ensures r.selectedSeats == []
    ensures r.(selectedSeats := s.selectedSeats) == s
  {
    s.(selectedSeats := [])
  }

  /** `resetBooking()`: every booking field goes back to its initial value;
      the search parameters are kept. */
  function ResetBooking(s: State): (r: State)
    ensures r.searchParams == s.searchParams
    ensures r.(searchParams := Initial().searchParams) == Initial()
  {
    s.(selectedFlight := None, selectedSeats := [], passengerData := map[], paymentData := map[], loading := false)
  }

  /** A reset followed by clearing the search is the initial store. */
  lemma ResetAndClearIsInitial(s: State)
    ensures ClearSearchParams(ResetBooking(s)) == Initial()
  {
  }
}
