/** The card payment form of frontend/src/components/payments/PaymentForm.jsx:
    the card fields, their error object, `validateCardForm`,
    `handleCardChange`, and `handlePayment`, which schedules `onSubmit`
    two seconds later. The timer is an explicit event, `TimerFires`. */
module PaymentForm {
  import opened Wrappers
  import opened Text
  import Validation

  datatype Field = CardNumber | ExpiryDate | Cvv | CardHolderName

  datatype CardData = CardData(cardNumber: string, expiryDate: string, cvv: string, cardHolderName: string)

  datatype PaymentMethod = Credit | Paypal

  /** What `onSubmit` receives: `{ paymentMethod, cardData }` as they were
      when the payment button was pressed. */
  datatype Submission = Submission(paymentMethod: PaymentMethod, cardData: CardData)

  /** The `errors` object; `None` is a field the object has no key for. */
  datatype Errors = Errors(
    cardNumber: Option<string>, expiryDate: Option<string>, cvv: Option<string>, cardHolderName: Option<string>)

  const NoErrors := Errors(None, None, None, None)

  /** The component's state. `scheduled` holds the callbacks of the pending
      two-second timers, oldest first. */
  datatype State = State(
    paymentMethod: PaymentMethod,
    cardData: CardData,
    processing: bool,
    errors: Errors,
    scheduled: seq<Submission>)

  const Initial := State(Credit, CardData("", "", "", ""), false, NoErrors, [])

  function Get(c: CardData, f: Field): string {
    match f
    case CardNumber => c.cardNumber
    case ExpiryDate => c.expiryDate
    case Cvv => c.cvv
    case CardHolderName => c.cardHolderName
  }

  function ErrorOf(e: Errors, f: Field): Option<string> {
    match f
    case CardNumber => e.cardNumber
    case ExpiryDate => e.expiryDate
    case Cvv => e.cvv
    case CardHolderName => e.cardHolderName
  }

  // The texts the form shows.
  const CardNumberRequired: string := "Card number is required"
  const CardNumberInvalid: string := "Invalid card number"
  const ExpiryDateRequired: string := "Expiry date is required"
  const CvvRequired: string := "CVV is required"
  const CvvInvalid: string := "Invalid CVV"
  const CardHolderNameRequired: string := "Cardholder name is required"

  /** The error object of one validation. A test `!s.trim()` is written as
      `IsBlank(s)` (Text.TrimEmptyIffBlank). */
  function CardErrors(c: CardData): Errors {
    Errors(
      if IsBlank(c.cardNumber) then Some(CardNumberRequired)
      else if !Validation.ValidateCardNumber(c.cardNumber) then Some(CardNumberInvalid)
      else None,
      if IsBlank(c.expiryDate) then Some(ExpiryDateRequired) else None,
      if IsBlank(c.cvv) then Some(CvvRequired)
      else if !Validation.ValidateCvv(c.cvv) then Some(CvvInvalid)
      else None,
      if IsBlank(c.cardHolderName) then Some(CardHolderNameRequired) else None)
  }

  /** The card number is reported missing when its trim is empty, otherwise
      invalid unless it is sixteen digits once white space is removed. */
  lemma CardNumberError(c: CardData)
    ensures CardErrors(c).cardNumber.Some? <==>
      Trim(c.cardNumber) == "" || !(|RemoveSpaces(c.cardNumber)| == 16 && AllDigits(RemoveSpaces(c.cardNumber)))
    ensures Trim(c.cardNumber) == "" ==> CardErrors(c).cardNumber == Some(CardNumberRequired)
  {
    TrimEmptyIffBlank(c.cardNumber);
  }

  /** The CVV is reported missing when its trim is empty, otherwise invalid
      unless the untrimmed text is three or four digits. */
  lemma CvvError(c: CardData)
    ensures CardErrors(c).cvv.Some? <==> Trim(c.cvv) == "" || !(3 <= |c.cvv| <= 4 && AllDigits(c.cvv))
    ensures Trim(c.cvv) == "" ==> CardErrors(c).cvv == Some(CvvRequired)
  {
    TrimEmptyIffBlank(c.cvv);
  }

  /** The expiry date and the holder's name only have to be non-blank. */
  lemma PresenceOnlyErrors(c: CardData)
    ensures CardErrors(c).expiryDate.Some? <==> Trim(c.expiryDate) == ""
    ensures CardErrors(c).cardHolderName.Some? <==> Trim(c.cardHolderName) == ""
  {
    TrimEmptyIffBlank(c.expiryDate);
    TrimEmptyIffBlank(c.cardHolderName);
  }

  /** The form does not check the expiry format: "13/99" passes here although
      `validateExpiryDate` rejects it; and a CVV with a leading blank, such as
      " 123", is invalid because it is not trimmed before the digit test. */
  lemma FormLaxerAndStricterThanValidators()
    ensures CardErrors(CardData("4242424242424242", "13/99", "123", "A")).expiryDate.None?
    ensures !Validation.ValidateExpiryDate("13/99")
    ensures CardErrors(CardData("", "", " 123", "")).cvv == Some(CvvInvalid)
  {
    assert "13/99"[0] == '1' && "13/99"[1] == '3';
    assert !IsSpace("13/99"[0]);
    assert !IsSpace(" 123"[1]);
    Validation.CvvRejectsSpaces("123", ' ');
    assert [' '] + "123" == " 123";
  }

  /** `validateCardForm()`: fills `newErrors` field by field and reports
      whether it stayed empty. */
  method ValidateCardForm(c: CardData) returns (newErrors: Errors, ok: bool)
    ensures newErrors == CardErrors(c)
    ensures ok <==> newErrors == NoErrors
  {
    newErrors := NoErrors;
    if IsBlank(c.cardNumber) {
      newErrors := newErrors.(cardNumber := Some(CardNumberRequired));
    } else if !Validation.ValidateCardNumber(c.cardNumber) {
      newErrors := newErrors.(cardNumber := Some(CardNumberInvalid));
    }
    if IsBlank(c.expiryDate) {
      newErrors := newErrors.(expiryDate := Some(ExpiryDateRequired));
    }
    if IsBlank(c.cvv) {
      newErrors := newErrors.(cvv := Some(CvvRequired));
    } else if !Validation.ValidateCvv(c.cvv) {
      newErrors := newErrors.(cvv := Some(CvvInvalid));
    }
    if IsBlank(c.cardHolderName) {
      newErrors := newErrors.(cardHolderName := Some(CardHolderNameRequired));
    }
    ok := newErrors == NoErrors;
  }

  /** Validation passes exactly for a card whose four fields are filled in,
      whose number is sixteen digits up to white space and whose CVV is three
      or four digits. */
  lemma NoErrorsMeansValidCard(c: CardData)
    ensures CardErrors(c) == NoErrors <==>
      && Validation.ValidateCardNumber(c.cardNumber)
      && Trim(c.expiryDate) != ""
      && Validation.ValidateCvv(c.cvv)
      && Trim(c.cardHolderName) != ""
  {
    PresenceOnlyErrors(c);
    NumberPasses(c.cardNumber);
    CvvPasses(c.cvv);
  }

  lemma NumberPasses(s: string)
    ensures !IsBlank(s) && Validation.ValidateCardNumber(s) <==> Validation.ValidateCardNumber(s)
  {
    if Validation.ValidateCardNumber(s) {
      NumberNotBlank(s);
    }
  }

  lemma CvvPasses(s: string)
    ensures !IsBlank(s) && Validation.ValidateCvv(s) <==> Validation.ValidateCvv(s)
  {
    if Validation.ValidateCvv(s) {
      assert !IsSpace(s[0]);
    }
  }

  lemma NumberNotBlank(s: string)
    requires Validation.ValidateCardNumber(s)
    ensures !IsBlank(s)
  {
    if IsBlank(s) {
      BlankRemovesAll(s);
    }
  }

  lemma {:induction false} BlankRemovesAll(s: string)
    requires IsBlank(s)
    ensures RemoveSpaces(s) == []
  {
    if s != [] {
      BlankRemovesAll(s[1..]);
    }
  }

  /** `handleCardChange(e)`: the named field takes the new text and only that
      field's error is blanked (`[name]: ''` when it was set). */
  function HandleCardChange(s: State, name: Field, value: string): (r: State)
    ensures Get(r.cardData, name) == value
    ensures forall g :: g != name ==> Get(r.cardData, g) == Get(s.cardData, g)
    ensures forall g :: g != name ==> ErrorOf(r.errors, g) == ErrorOf(s.errors, g)
    ensures ErrorOf(s.errors, name).Some? ==> ErrorOf(r.errors, name) == Some("")
    ensures ErrorOf(s.errors, name).None? ==> ErrorOf(r.errors, name).None?
    ensures r.paymentMethod == s.paymentMethod && r.processing == s.processing && r.scheduled == s.scheduled
  {
    var c := s.cardData;
    var card := match name
      case CardNumber => c.(cardNumber := value)
      case ExpiryDate => c.(expiryDate := value)
      case Cvv => c.(cvv := value)
      case CardHolderName => c.(cardHolderName := value);
    var e := s.errors;
    var m := ErrorOf(e, name);
    var errors := if m.None? || m.value == "" then e else match name
      case CardNumber => e.(cardNumber := Some(""))
      case ExpiryDate => e.(expiryDate := Some(""))
      case Cvv => e.(cvv := Some(""))
      case CardHolderName => e.(cardHolderName := Some(""));
    s.(cardData := card, errors := errors)
  }

  /** `handlePayment(e)`: validates the card; only when it passes does it set
      `processing` and schedule `onSubmit` with the current method and card. */
  method HandlePayment(s: State) returns (r: State)
    ensures r.errors == CardErrors(s.cardData)
    ensures r.paymentMethod == s.paymentMethod && r.cardData == s.cardData
    ensures r.errors == NoErrors ==>
      r.processing && r.scheduled == s.scheduled + [Submission(s.paymentMethod, s.cardData)]
    ensures r.errors != NoErrors ==> r.processing == s.processing && r.scheduled == s.scheduled
    ensures ScheduledValid(s) ==> ScheduledValid(r)
  {
    var newErrors, ok := ValidateCardForm(s.cardData);
    r := s.(errors := newErrors);
    if ok {
      r := r.(processing := true, scheduled := r.scheduled + [Submission(s.paymentMethod, s.cardData)]);
    }
  }

  /** The oldest pending timer fires: `processing` goes back to false and
      `onSubmit` receives what was captured when it was scheduled. */
  function TimerFires(s: State): (r: (State, Option<Submission>))
    ensures s.scheduled == [] ==> r.1.None? && r.0 == s
    ensures s.scheduled != [] ==>
      r.1 == Some(s.scheduled[0]) && !r.0.processing && r.0.scheduled == s.scheduled[1..]
    ensures r.0.paymentMethod == s.paymentMethod && r.0.cardData == s.cardData && r.0.errors == s.errors
  {
    if s.scheduled == [] then (s, None)
    else (s.(processing := false, scheduled := s.scheduled[1..]), Some(s.scheduled[0]))
  }

  /** Every submission that can ever reach `onSubmit` passed validation when
      it was scheduled: an invariant of all reachable states. */
  ghost predicate ScheduledValid(s: State) {
    forall i :: 0 <= i < |s.scheduled| ==> CardErrors(s.scheduled[i].cardData) == NoErrors
  }

  lemma StepsKeepScheduledValid(s: State, name: Field, value: string)
    requires ScheduledValid(s)
    ensures ScheduledValid(HandleCardChange(s, name, value))
    ensures ScheduledValid(TimerFires(s).0)
  {
  }
}
