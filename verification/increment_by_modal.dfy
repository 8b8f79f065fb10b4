/**
 * The amount dialog of frontend/components/Counter/IncrementByModal.tsx: two text
 * fields of component state, the typed amount and the error shown under it, plus
 * the "processing" flag, driven by opening the dialog, typing, the confirm
 * button and the Enter key. What the dialog hands to `onConfirm` is an output
 * of each step; the asynchronous call itself is left to the caller.
 */
module IncrementByModal {
  import opened Wrappers
  import opened JsString

  /** The component state: `amount`, `error` and `isProcessing`. */
  datatype Modal = Modal(amount: string, error: string, processing: bool)

  /** The state after a step and the amount passed to `onConfirm`, if any. */
  datatype Step = Step(state: Modal, submitted: Option<int>)

  const InvalidNumber := "Please enter a valid number"
  const NotPositive := "Amount must be greater than 0"
  const TooLarge := "Amount too large (max: 999,999)"
  const MaxAmount := 999999

  /** What `validateAmount` decides: the amount, or the message it sets. */
  datatype Verdict = Accept(amount: int) | Reject(message: string)

  /** The state the dialog is put in when it opens. */
  function Open(): Modal {
    Modal("", "", false)
  }

  /** `validateAmount(value)`, on `parseInt(value, 10)`. */
  function Validate(value: string): Verdict {
    var num := ParseInt(value, Radix10);
    if value == "" || num.NaN? then Reject(InvalidNumber)
    else if num.value <= 0 then Reject(NotPositive)
    else if num.value > MaxAmount then Reject(TooLarge)
    else Accept(num.value)
  }

  /** The error `validateAmount` leaves behind: its message, or "" on success. */
  function ErrorAfter(v: Verdict): string {
    if v.Reject? then v.message else ""
  }

  /** `/^\d+$/.test(value)` */
  predicate IsNumeral(value: string) {
    value != "" && AllDigits(value, Decimal)
  }

  /** `handleAmountChange`: anything but digits is refused; "" clears the error without validating. */
  function Change(m: Modal, value: string): Modal {
    if value != "" && !IsNumeral(value) then m
    else if value != "" then m.(amount := value, error := ErrorAfter(Validate(value)))
    else m.(amount := "", error := "")
  }

  /** `handleConfirm`: validate, then start processing and pass the parsed amount to `onConfirm`. */
  function Confirm(m: Modal): Step {
    match Validate(m.amount)
    case Reject(message) => Step(m.(error := message), None)
    case Accept(n) => Step(m.(error := "", processing := true), Some(n))
  }

  /** The `finally` of `handleConfirm`, once `onConfirm` has settled. */
  function Settle(m: Modal): Modal {
    m.(processing := false)
  }

  /** `disabled={!amount || !!error || isProcessing}` of the confirm button, negated. */
  predicate CanConfirm(m: Modal) {
    m.amount != "" && m.error == "" && !m.processing
  }

  /** A click on the confirm button, which is disabled unless `CanConfirm`. */
  function Press(m: Modal): Step {
    if CanConfirm(m) then Confirm(m) else Step(m, None)
  }

  /** `handleKeyDown` as written: Enter confirms when there is an amount and no error. */
  function KeyDownAsWritten(m: Modal, key: string): Step {
    if key == "Enter" && m.amount != "" && m.error == "" then Confirm(m) else Step(m, None)
  }

  /** `handleKeyDown` with the button's guard: Enter does nothing while a confirmation is processing. */
  function KeyDown(m: Modal, key: string): Step {
    if key == "Enter" && CanConfirm(m) then Confirm(m) else Step(m, None)
  }

  // ------------------------------------------------------------- properties

  /** A numeral parses to its value. */
  lemma NumeralValue(value: string)
    requires IsNumeral(value)
    ensures ParseInt(value, Radix10) == Num(ValueOf(value, Decimal))
  {
    assert value + [] == value;
    ParseDigits(value, [], Radix10);
  }

  /**
   * A numeral is accepted exactly when its value lies in 1..999999, and then
   * with that value; a value of 0 (also "000") is "not positive" and a larger one
   * "too large". The empty text is "not a valid number".
   */
  lemma ValidateNumeral(value: string)
    requires value == "" || IsNumeral(value)
    ensures value == "" ==> Validate(value) == Reject(InvalidNumber)
    ensures value != "" ==>
              && (Validate(value).Accept? <==> 1 <= ValueOf(value, Decimal) <= MaxAmount)
              && (Validate(value).Accept? ==> Validate(value).amount == ValueOf(value, Decimal))
              && (ValueOf(value, Decimal) == 0 ==> Validate(value) == Reject(NotPositive))
              && (ValueOf(value, Decimal) > MaxAmount ==> Validate(value) == Reject(TooLarge))
  {
    if value != "" {
      NumeralValue(value);
    }
  }

  /** Text that is not a numeral changes neither the amount nor the error. */
  lemma NonNumeralIgnored(m: Modal, value: string)
    requires value != "" && !IsNumeral(value)
    ensures Change(m, value) == m
  {
  }

  /**
   * The dialog's own states: the amount is "" with no error, or a numeral with
   * the error its validation leaves.
   */
  ghost predicate Consistent(m: Modal) {
    if m.amount == "" then m.error == "" else IsNumeral(m.amount) && m.error == ErrorAfter(Validate(m.amount))
  }

  /** Opening, typing, the button, the Enter key and settling keep the state consistent. */
  lemma StaysConsistent(m: Modal, value: string, key: string)
    requires Consistent(m)
    ensures Consistent(Open())
    ensures Consistent(Change(m, value))
    ensures Consistent(Press(m).state)
    ensures Consistent(KeyDownAsWritten(m, key).state)
    ensures Consistent(KeyDown(m, key).state)
    ensures Consistent(Settle(m))
  {
  }

  /**
   * In a consistent state, "an amount and no error" (the preview, the Enter
   * guard and the button without its processing part) means exactly that the
   * amount validates, and confirming submits exactly its value.
   */
  lemma GuardMeansValid(m: Modal)
    requires Consistent(m)
    ensures m.amount != "" && m.error == "" <==> Validate(m.amount).Accept?
    ensures Confirm(m).submitted.Some? <==> Validate(m.amount).Accept?
    ensures Confirm(m).submitted.Some? ==>
              && 1 <= Confirm(m).submitted.value <= MaxAmount
              && Confirm(m).submitted.value == ValueOf(m.amount, Decimal)
  {
    if m.amount != "" {
      ValidateNumeral(m.amount);
    }
  }

  /** Enter submits only when there is an amount and no error; in a consistent state, only a valid amount. */
  lemma EnterNeedsValidAmount(m: Modal, key: string)
    requires Consistent(m)
    ensures KeyDownAsWritten(m, key).submitted.Some? ==>
              key == "Enter" && m.amount != "" && m.error == "" && Validate(m.amount).Accept?
  {
    GuardMeansValid(m);
  }

  /** With the button's guard, Enter submits exactly when the button is enabled. */
  lemma EnterAgreesWithButton(m: Modal)
    requires Consistent(m)
    ensures KeyDown(m, "Enter").submitted.Some? <==> CanConfirm(m)
  {
    GuardMeansValid(m);
  }

  /** Typing "5" and pressing Enter twice, before `onConfirm` settles, submits 5 twice. */
  lemma DoubleSubmit()
    ensures var first := KeyDownAsWritten(Change(Open(), "5"), "Enter");
            var second := KeyDownAsWritten(first.state, "Enter");
            && first.submitted == Some(5)
            && first.state.processing
            && second.submitted == Some(5)
  {
    assert IsNumeral("5");
    NumeralValue("5");
    assert ValueOf("5", Decimal) == 5 by {
      assert "5"[..0] == "";
    }
  }

  /** With the guard, a second Enter while the first confirmation is processing submits nothing. */
  lemma NoDoubleSubmit(m: Modal, key: string)
    requires m.processing
    ensures KeyDown(m, key).submitted == None
    ensures KeyDown(m, key).state == m
  {
  }
}
