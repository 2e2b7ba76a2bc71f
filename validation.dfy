/** The client-side field validators (frontend/src/utils/validation.js). Each
    regular expression of the source is given twice: as the pattern's own
    shape (which substrings must exist) and as a direct check, with a lemma
    that the two agree. */
module Validation {
  import opened Text
  import Js

  // ---------------------------------------------------------------- email

  /** The pattern `\S+@\S+\.\S+` matches somewhere in `s` with its '@' at
      index `i` and its '.' at index `j`. Because `\S+` needs only one
      character, the non-space runs before '@' and after '.' reduce to the
      single neighbouring character. */
  predicate EmailMatchAt(s: string, i: int, j: int) {
    && 0 < i && i + 1 < j && j + 1 < |s|
    && s[i] == '@' && s[j] == '.'
    && !IsSpace(s[i - 1]) && !IsSpace(s[j + 1])
    && forall k :: i < k < j ==> !IsSpace(s[k])
  }

  /** The unanchored pattern matches some substring of `s`. */
  ghost predicate EmailPattern(s: string) {
    exists i, j :: EmailMatchAt(s, i, j)
  }

  /** The maximal prefix of `t` free of white space. */
  function LeadingRun(t: string): (r: string)
    ensures |r| <= |t| && r == t[..|r|]
    ensures forall k :: 0 <= k < |r| ==> !IsSpace(t[k])
    ensures |r| < |t| ==> IsSpace(t[|r|])
  {
    if t == [] || IsSpace(t[0]) then [] else [t[0]] + LeadingRun(t[1..])
  }

  /** What follows an '@': its non-space run holds a '.' that is neither the
      run's first nor its last character. */
  predicate DomainOk(t: string) {
    var r := LeadingRun(t);
    |r| >= 3 && '.' in r[1..|r| - 1]
  }

  /** An '@' at index `k` with a non-space character before it and a
      well-formed domain run after it. */
  predicate AtSignOk(s: string, k: int) {
    0 < k < |s| && s[k] == '@' && !IsSpace(s[k - 1]) && DomainOk(s[k + 1..])
  }

  /** The search for a match, tried at every index from `i` on, left to
      right as the regular-expression engine does. */
  predicate EmailFrom(s: string, i: nat)
    decreases |s| - i
  {
    i < |s| && (AtSignOk(s, i) || EmailFrom(s, i + 1))
  }

  /** `validateEmail`. */
  predicate ValidateEmail(s: string) {
    EmailFrom(s, 0)
  }

  /** The scan from `i` succeeds exactly when some '@' at or after `i` fits. */
  lemma EmailFromExists(s: string, i: nat)
    ensures EmailFrom(s, i) <==> exists k :: i <= k < |s| && AtSignOk(s, k)
  {
    if EmailFrom(s, i) {
      var k := EmailFromWitness(s, i);
    }
    if exists k :: i <= k < |s| && AtSignOk(s, k) {
      var k :| i <= k < |s| && AtSignOk(s, k);
      EmailFromReaches(s, i, k);
    }
  }

  /** A successful scan stops at an '@' that fits. */
  lemma {:induction false} EmailFromWitness(s: string, i: nat) returns (k: nat)
    requires EmailFrom(s, i)
    ensures i <= k < |s| && AtSignOk(s, k)
    decreases |s| - i
  {
    if AtSignOk(s, i) {
      k := i;
    } else {
      k := EmailFromWitness(s, i + 1);
    }
  }

  /** The scan from `i` reaches any '@' at or after `i` that fits. */
  lemma {:induction false} EmailFromReaches(s: string, i: nat, k: nat)
    requires i <= k < |s| && AtSignOk(s, k)
    ensures EmailFrom(s, i)
    decreases k - i
  {
    if i < k {
      EmailFromReaches(s, i + 1, k);
    }
  }

  /** The direct check accepts exactly the strings the source's regular
      expression matches. */
  lemma ValidateEmailIsPattern(s: string)
    ensures ValidateEmail(s) <==> EmailPattern(s)
  {
    EmailFromExists(s, 0);
    if ValidateEmail(s) {
      var i :| 0 <= i < |s| && AtSignOk(s, i);
      var j := DomainGivesMatch(s, i);
    }
    if EmailPattern(s) {
      var i, j :| EmailMatchAt(s, i, j);
      MatchGivesDomain(s, i, j);
      assert AtSignOk(s, i);
    }
  }

  lemma DomainGivesMatch(s: string, i: int) returns (j: int)
    requires 0 < i < |s| && s[i] == '@' && !IsSpace(s[i - 1]) && DomainOk(s[i + 1..])
    ensures EmailMatchAt(s, i, j)
  {
    var t := s[i + 1..];
    var r := LeadingRun(t);
    var q :| 1 <= q < |r| - 1 && r[q] == '.';
    j := i + 1 + q;
    assert s[j] == r[q];
    forall k | i < k < j ensures !IsSpace(s[k]) {
      assert s[k] == t[k - i - 1];
    }
    assert s[j + 1] == t[q + 1];
  }

  lemma MatchGivesDomain(s: string, i: int, j: int)
    requires EmailMatchAt(s, i, j)
    ensures DomainOk(s[i + 1..])
  {
    var t := s[i + 1..];
    var r := LeadingRun(t);
    assert |r| >= j - i + 1;
    assert r[j - i - 1] == s[j];
    assert r[1..|r| - 1][j - i - 2] == '.';
  }

  // ---------------------------------------------------- length-based rules

  /** `validatePassword`: a `length` of at least six UTF-16 code units. */
  predicate ValidatePassword(password: string) {
    Js.Length(password) >= 6
  }

  /** `validatePassportNumber`: the same six-unit minimum. */
  predicate ValidatePassportNumber(passportNumber: string) {
    Js.Length(passportNumber) >= 6
  }

  /** Both length rules are the same rule, and it is kept by extending the
      input. Six characters always pass, fewer than three never do. */
  lemma LengthRulesAgree(s: string, more: string)
    ensures ValidatePassword(s) <==> ValidatePassportNumber(s)
    ensures ValidatePassword(s) ==> ValidatePassword(s + more)
    ensures |s| >= 6 ==> ValidatePassword(s)
    ensures |s| < 3 ==> !ValidatePassword(s)
  {
    Js.LengthAppend(s, more);
  }

  /** `length` counts code units, not characters: four letters and one
      emoji are five characters but pass the six-unit minimum. */
  lemma AstralCharacterCountsTwice()
    ensures |"abcd\U{1F600}"| == 5 && ValidatePassword("abcd\U{1F600}")
  {
    assert "abcd\U{1F600}"[..4] == "abcd";
    assert "abcd"[..3] == "abc";
    assert "abc"[..2] == "ab";
    assert "ab"[..1] == "a";
  }

  // ------------------------------------------------------------ card data

  /** `validateCardNumber`: after deleting every white-space character,
      exactly sixteen ASCII digits remain. */
  predicate ValidateCardNumber(cardNumber: string) {
    var cleaned := RemoveSpaces(cardNumber);
    |cleaned| == 16 && AllDigits(cleaned)
  }

  /** Inserting white space anywhere does not change the verdict. */
  lemma {:induction false} CardNumberIgnoresSpaces(a: string, c: char, b: string)
    requires IsSpace(c)
    ensures ValidateCardNumber(a + [c] + b) <==> ValidateCardNumber(a + b)
  {
    assert RemoveSpaces([c]) == [] by {
      assert [c][1..] == [];
    }
    RemoveSpacesAppend(a + [c], b);
    RemoveSpacesAppend(a, [c]);
    RemoveSpacesAppend(a, b);
    assert RemoveSpaces(a + [c]) == RemoveSpaces(a);
  }

  /** A card number that is already sixteen digits is accepted as it stands. */
  lemma {:induction false} SixteenDigitsAccepted(s: string)
    requires |s| == 16 && AllDigits(s)
    ensures ValidateCardNumber(s)
  {
    NoSpaceUnchanged(s);
  }

  lemma {:induction false} NoSpaceUnchanged(s: string)
    requires forall i :: 0 <= i < |s| ==> !IsSpace(s[i])
    ensures RemoveSpaces(s) == s
  {
    if s != [] {
      NoSpaceUnchanged(s[1..]);
    }
  }

  /** `validateCVV`: three or four digits, with nothing stripped first. */
  predicate ValidateCvv(cvv: string) {
    3 <= |cvv| <= 4 && AllDigits(cvv)
  }

  /** A leading blank makes any CVV invalid, because nothing is stripped. */
  lemma CvvRejectsSpaces(cvv: string, c: char)
    requires IsSpace(c)
    ensures !ValidateCvv([c] + cvv)
    ensures !ValidateCvv(cvv + [c])
  {
    assert ([c] + cvv)[0] == c;
    assert (cvv + [c])[|cvv|] == c;
  }

  /** `validateExpiryDate`: `(0[1-9]|1[0-2])/[0-9]{2}` anchored at both ends. */
  predicate ValidateExpiryDate(expiryDate: string) {
    && |expiryDate| == 5
    && ((expiryDate[0] == '0' && '1' <= expiryDate[1] <= '9')
        || (expiryDate[0] == '1' && '0' <= expiryDate[1] <= '2'))
    && expiryDate[2] == '/'
    && IsDigit(expiryDate[3]) && IsDigit(expiryDate[4])
  }

  /** The pattern accepts exactly "MM/YY" with MM a two-digit month 01..12
      and YY any two digits. */
  lemma ExpiryDateIsMonthYear(e: string)
    ensures ValidateExpiryDate(e) <==>
      && |e| == 5 && e[2] == '/'
      && AllDigits(e[..2]) && AllDigits(e[3..])
      && 1 <= ParseNat(e[..2]) <= 12
  {
    if |e| == 5 && AllDigits(e[..2]) {
      var mm := e[..2];
      assert mm[..1] == [e[0]];
      assert ParseNat([e[0]]) == DigitValue(e[0]) by {
        assert [e[0]][..0] == [];
      }
      assert ParseNat(mm) == DigitValue(e[0]) * 10 + DigitValue(e[1]);
    }
  }

  // ---------------------------------------------------------------- phone

  /** `validatePhone`: at least ten digit characters, wherever they are. */
  predicate ValidatePhone(phone: string) {
    |KeepDigits(phone)| >= 10
  }

  /** Separators (any non-digits) inserted anywhere do not change the verdict. */
  lemma {:induction false} PhoneIgnoresSeparators(a: string, sep: string, b: string)
    requires forall k :: 0 <= k < |sep| ==> !IsDigit(sep[k])
    ensures ValidatePhone(a + sep + b) <==> ValidatePhone(a + b)
  {
    KeepDigitsAppend(a + sep, b);
    KeepDigitsAppend(a, sep);
    KeepDigitsAppend(a, b);
    NoDigits(sep);
  }

  lemma {:induction false} NoDigits(s: string)
    requires forall k :: 0 <= k < |s| ==> !IsDigit(s[k])
    ensures KeepDigits(s) == []
  {
    if s != [] {
      NoDigits(s[1..]);
    }
  }

  // ------------------------------------------------------------- required

  /** `validateRequired(value)`, i.e. `value && value.trim().length > 0`:
      a falsy value is returned as it is (so '', null and undefined come
      back unchanged rather than as `false`); a string is answered with a
      boolean. A truthy non-string would make `trim` throw, so the source's
      callers pass strings or nullish values only. */
  function ValidateRequired(value: Js.Value): (r: Js.Value)
    requires !Js.Truthy(value) || value.Str?
    ensures Js.Truthy(r) <==> value.Str? && !IsBlank(value.s)
    ensures !Js.Truthy(value) ==> r == value
    ensures Js.Truthy(value) ==> r.Bool?
  {
    if !Js.Truthy(value) then value
    else
      TrimEmptyIffBlank(value.s);
      Js.Bool(|Trim(value.s)| > 0)
  }
}
