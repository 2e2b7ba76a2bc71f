/** The generic form hook of frontend/src/hooks/useForm.js: a map of field
    values, a map of error texts, per-field validation rules, and the three
    operations `handleChange`, `validate` and `reset`. React state is
    immutable, so every operation returns the next `FormState`. */
module FormHook {
  import opened Wrappers
  import opened Text
  import Js

  /** One entry of `validationRules`. A zero `minLength`/`maxLength` and an
      empty `message` stand for the falsy (absent) option; `pattern.test`
      is applied to the value's string form. */
  datatype Rule = Rule(
    required: bool,
    pattern: Option<string -> bool>,
    minLength: int,
    maxLength: int,
    custom: Option<Js.Value -> bool>,
    message: string)

  datatype FormState = FormState(values: map<string, Js.Value>, errors: map<string, string>)

  /** The target of a change event. */
  datatype Change = Change(name: string, value: string, isCheckbox: bool, checked: bool)

  /** `values[field]`: `undefined` for a field that has no value. */
  function ValueOf(values: map<string, Js.Value>, field: string): Js.Value {
    if field in values then values[field] else Js.Undefined
  }

  // The five checks, each as the source guards it. All but `required` only
  // look at truthy values; `value.length` is `undefined` for a non-string, and
  // a comparison with `undefined` is false.

  predicate FailsRequired(rule: Rule, value: Js.Value) {
    rule.required && (!Js.Truthy(value) || Trim(Js.ToStr(value)) == "")
  }

  predicate FailsPattern(rule: Rule, value: Js.Value) {
    rule.pattern.Some? && Js.Truthy(value) && !rule.pattern.value(Js.ToStr(value))
  }

  predicate FailsMinLength(rule: Rule, value: Js.Value) {
    rule.minLength != 0 && Js.Truthy(value) && value.Str? && Js.Length(value.s) < rule.minLength
  }

  predicate FailsMaxLength(rule: Rule, value: Js.Value) {
    rule.maxLength != 0 && Js.Truthy(value) && value.Str? && Js.Length(value.s) > rule.maxLength
  }

  predicate FailsCustom(rule: Rule, value: Js.Value) {
    rule.custom.Some? && Js.Truthy(value) && !rule.custom.value(value)
  }

  /** `rule.message || fallback`. */
  function MessageOr(rule: Rule, fallback: string): string {
    if rule.message != "" then rule.message else fallback
  }

  /** The error one field gets: the first failing check in the order
      required, pattern, minLength, maxLength, custom. */
  function ErrorFor(field: string, rule: Rule, value: Js.Value): Option<string> {
    if FailsRequired(rule, value) then
      Some(MessageOr(rule, field + " is required"))
    else if FailsPattern(rule, value) then
      Some(MessageOr(rule, field + " is invalid"))
    else if FailsMinLength(rule, value) then
      Some(MessageOr(rule, field + " must be at least " + IntToString(rule.minLength) + " characters"))
    else if FailsMaxLength(rule, value) then
      Some(MessageOr(rule, field + " must be no more than " + IntToString(rule.maxLength) + " characters"))
    else if FailsCustom(rule, value) then
      Some(MessageOr(rule, field + " is invalid"))
    else
      None
  }

  /** A field has an error exactly when one of its checks fails; a rule's
      own message replaces every default text. */
  lemma ErrorForIffSomeCheckFails(field: string, rule: Rule, value: Js.Value)
    ensures ErrorFor(field, rule, value).Some? <==>
      FailsRequired(rule, value) || FailsPattern(rule, value) || FailsMinLength(rule, value)
      || FailsMaxLength(rule, value) || FailsCustom(rule, value)
    ensures rule.message != "" && ErrorFor(field, rule, value).Some? ==>
      ErrorFor(field, rule, value).value == rule.message
  {
  }

  /** The required check is decided first: when it fails, its text wins over
      every other failing check. */
  lemma RequiredComesFirst(field: string, rule: Rule, value: Js.Value)
    requires FailsRequired(rule, value) && rule.message == ""
    ensures ErrorFor(field, rule, value) == Some(field + " is required")
  {
  }

  /** A falsy value (`''`, `0`, `false`, `null`, `undefined`) is only ever
      rejected by the required check. */
  lemma FalsyOnlyRequired(field: string, rule: Rule, value: Js.Value)
    requires !Js.Truthy(value)
    ensures ErrorFor(field, rule, value).Some? <==> rule.required
  {
  }

  /** The error map `validate` builds: one entry per ruled field whose check
      fails, and nothing for fields without rules. */
  function ErrorsOf(rules: map<string, Rule>, values: map<string, Js.Value>): (errs: map<string, string>)
    ensures errs.Keys <= rules.Keys
  {
    map f | f in rules && ErrorFor(f, rules[f], ValueOf(values, f)).Some? ::
      ErrorFor(f, rules[f], ValueOf(values, f)).value
  }

  /** `validate()`: visits every ruled field, accumulates `newErrors`,
      replaces the error map wholesale and reports whether it is empty. */
  method Validate(rules: map<string, Rule>, state: FormState) returns (next: FormState, ok: bool)
    ensures next.values == state.values
    ensures next.errors == ErrorsOf(rules, state.values)
    ensures ok <==> forall f :: f in rules ==> ErrorFor(f, rules[f], ValueOf(state.values, f)).None?
  {
    var newErrors: map<string, string> := map[];
    var todo := rules.Keys;
    while todo != {}
      invariant todo <= rules.Keys
      invariant forall f :: f in newErrors <==>
        f in rules && f !in todo && ErrorFor(f, rules[f], ValueOf(state.values, f)).Some?
      invariant forall f :: f in newErrors ==>
        newErrors[f] == ErrorFor(f, rules[f], ValueOf(state.values, f)).value
      decreases todo
    {
      var field :| field in todo;
      var e := ErrorFor(field, rules[field], ValueOf(state.values, field));
      if e.Some? {
        newErrors := newErrors[field := e.value];
      }
      todo := todo - {field};
    }
    next := FormState(state.values, newErrors);
    ok := |newErrors| == 0;
    if !ok {
      var f :| f in newErrors;
    }
  }

  /** `handleChange(e)`: the named field takes the event's `checked` flag
      for a checkbox and its text otherwise; that field's error is blanked
      only when it is currently non-empty; nothing else changes. */
  function HandleChange(state: FormState, e: Change): (next: FormState)
    ensures next.values.Keys == state.values.Keys + {e.name}
    ensures next.values[e.name] == if e.isCheckbox then Js.Bool(e.checked) else Js.Str(e.value)
    ensures forall f :: f in state.values && f != e.name ==> next.values[f] == state.values[f]
    ensures e.name in state.errors && state.errors[e.name] != "" ==>
      next.errors.Keys == state.errors.Keys && next.errors[e.name] == ""
    ensures forall f :: f in state.errors && f != e.name ==> f in next.errors && next.errors[f] == state.errors[f]
    ensures !(e.name in state.errors && state.errors[e.name] != "") ==> next.errors == state.errors
  {
    var values := state.values[e.name := if e.isCheckbox then Js.Bool(e.checked) else Js.Str(e.value)];
    FormState(values, ClearError(state.errors, e.name))
  }

  /** `if (errors[name]) setErrors({...errors, [name]: ''})`, shared by every
      form of the client: a present, non-empty error text is blanked; the
      key stays in the map. */
  function ClearError<K>(errors: map<K, string>, name: K): (r: map<K, string>)
    ensures r.Keys == errors.Keys
    ensures name in errors ==> r[name] == ""
    ensures forall k :: k in errors && k != name ==> r[k] == errors[k]
  {
    if name in errors && errors[name] != "" then errors[name := ""] else errors
  }

  /** `reset()`: back to the initial values with no errors. */
  function Reset(initialValues: map<string, Js.Value>): FormState {
    FormState(initialValues, map[])
  }

  /** A change followed by `validate` judges the new value: a blanked error is
      never left standing for a field whose new value passes its rule. */
  lemma {:induction false} ChangeThenValidate(rules: map<string, Rule>, state: FormState, e: Change)
    requires e.name in rules
    ensures var v := if e.isCheckbox then Js.Bool(e.checked) else Js.Str(e.value);
      (e.name in ErrorsOf(rules, HandleChange(state, e).values)) <==> ErrorFor(e.name, rules[e.name], v).Some?
  {
  }

  /** After a reset no error is shown, and a following `validate` judges the
      initial values, whatever was edited before. */
  lemma ResetForgetsChanges(initialValues: map<string, Js.Value>, rules: map<string, Rule>)
    ensures Reset(initialValues).errors == map[]
    ensures ErrorsOf(rules, Reset(initialValues).values) == ErrorsOf(rules, initialValues)
  {
  }
}
