/** The quick-quote and contact forms: the validation pass that `validateForm` runs on submit,
    the submit button's loading state, and the completion step that resets the form. */
module Forms {
  import opened Text
  import opened Validation

  /** One control of a form as the markup declares it: its type, whether it is `required`,
      and the value it starts with, which `form.reset()` restores. */
  datatype Control = Control(kind: InputType, required: bool, initial: string)

  /** The values `form.reset()` restores. */
  function Initials(controls: seq<Control>): (vs: seq<string>)
    ensures |vs| == |controls|
    ensures forall i :: 0 <= i < |controls| ==> vs[i] == controls[i].initial
  {
    seq(|controls|, i requires 0 <= i < |controls| => controls[i].initial)
  }

  /** The controls together with the values they hold. */
  function FieldsOf(controls: seq<Control>, values: seq<string>): (fs: seq<Field>)
    requires |values| == |controls|
    ensures |fs| == |controls|
    ensures forall i :: 0 <= i < |controls| ==>
      fs[i] == Field(controls[i].kind, controls[i].required, values[i])
  {
    seq(|controls|, i requires 0 <= i < |controls| => Field(controls[i].kind, controls[i].required, values[i]))
  }

  /** No control carries a validation mark. */
  predicate AllUnmarked(marks: seq<Mark>) {
    forall i :: 0 <= i < |marks| ==> marks[i] == Unmarked
  }

  /** The marks `validateForm` leaves, given the marks before it ran: each required field
      carries the mark of its verdict, the other fields keep theirs. */
  function MarksAfter(fields: seq<Field>, before: seq<Mark>): (ms: seq<Mark>)
    requires |before| == |fields|
    ensures |ms| == |fields|
    ensures forall j :: 0 <= j < |fields| && fields[j].required ==> ms[j] == MarkFor(Check(fields[j]))
    ensures forall j :: 0 <= j < |fields| && !fields[j].required ==> ms[j] == before[j]
  {
    seq(|fields|, j requires 0 <= j < |fields| =>
      if fields[j].required then MarkFor(Check(fields[j])) else before[j])
  }

  /** Every required field that fails its check ends with an error mark, and every required
      field that passes ends marked as a success. */
  lemma FailuresMarkedAsErrors(fields: seq<Field>, before: seq<Mark>, j: nat)
    requires |before| == |fields| && j < |fields| && fields[j].required
    ensures MarksAfter(fields, before)[j].Error? <==> !FieldAccepted(fields[j])
    ensures FieldAccepted(fields[j]) ==> MarksAfter(fields, before)[j] == Success
  {
  }

  /** No required field among the first `n` carries an error mark in `marks`. */
  predicate NoRequiredErrorUpTo(fields: seq<Field>, marks: seq<Mark>, n: nat)
    requires n <= |fields| && |marks| == |fields|
  {
    n == 0 || (NoRequiredErrorUpTo(fields, marks, n - 1) && (fields[n - 1].required ==> !marks[n - 1].Error?))
  }

  lemma NoRequiredErrorStep(fields: seq<Field>, marks: seq<Mark>, n: nat)
    requires n < |fields| && |marks| == |fields|
    ensures NoRequiredErrorUpTo(fields, marks, n + 1) ==
      (NoRequiredErrorUpTo(fields, marks, n) && !(fields[n].required && marks[n].Error?))
  {
  }

  lemma {:induction false} NoRequiredErrorUpToAll(fields: seq<Field>, marks: seq<Mark>, n: nat)
    requires n <= |fields| && |marks| == |fields|
    ensures NoRequiredErrorUpTo(fields, marks, n) <==>
      forall j :: 0 <= j < n && fields[j].required ==> !marks[j].Error?
  {
    if n > 0 {
      NoRequiredErrorUpToAll(fields, marks, n - 1);
    }
  }

  /** The loop's running `isValid` flag, taken over every field, means that every required
      field is accepted. */
  lemma NoRequiredErrorMeansAccepted(fields: seq<Field>, before: seq<Mark>)
    requires |before| == |fields|
    ensures NoRequiredErrorUpTo(fields, MarksAfter(fields, before), |fields|) <==>
      forall j :: 0 <= j < |fields| && fields[j].required ==> FieldAccepted(fields[j])
  {
    var target := MarksAfter(fields, before);
    NoRequiredErrorUpToAll(fields, target, |fields|);
    forall j | 0 <= j < |fields| && fields[j].required
      ensures !target[j].Error? <==> FieldAccepted(fields[j])
    {
      FailuresMarkedAsErrors(fields, before, j);
    }
  }

  /** The body of the loop in `validateForm` for one required control, written as the mark
      assignments the handler makes: an empty value is marked as missing; otherwise the
      control is first marked as a success (`showFieldSuccess`), and that mark is replaced by
      an error (`showFieldError`) when an e-mail or tel control fails its shape check. The
      verdict itself is `Check`; the contract says the assignments end at its mark. */
  method CheckField(f: Field) returns (m: Mark, accepted: bool)
    ensures accepted <==> FieldAccepted(f)
    ensures m == MarkFor(Check(f))
    ensures m.Error? <==> !accepted
  {
    TrimEmptyIffAllSpace(f.value);
    accepted := true;
    if Blank(f.value) {
      m := Error(RequiredMessage);
      accepted := false;
    } else {
      m := Success;
      if f.kind == EmailInput && !IsValidEmail(f.value) {
        m := Error(EmailMessage);
        accepted := false;
      } else if f.kind == TelInput && !IsValidPhone(f.value) {
        m := Error(PhoneMessage);
        accepted := false;
      }
    }
  }

  /** The `forEach` over the required fields in `validateForm`: the marks the fields carry
      afterwards, and whether every required field was accepted. */
  method CheckRequired(fields: seq<Field>, before: seq<Mark>) returns (marks: seq<Mark>, ok: bool)
    requires |before| == |fields|
    ensures marks == MarksAfter(fields, before)
    ensures ok <==> forall j :: 0 <= j < |fields| && fields[j].required ==> FieldAccepted(fields[j])
  {
    ghost var target := MarksAfter(fields, before);
    marks := before;
    ok := true;
    var i := 0;
    while i < |fields|
      invariant 0 <= i <= |fields|
      invariant |marks| == |fields|
      invariant ok <==> NoRequiredErrorUpTo(fields, target, i)
      invariant forall j :: 0 <= j < |fields| ==> marks[j] == if j < i then target[j] else before[j]
    {
      NoRequiredErrorStep(fields, target, i);
      marks, ok := CheckStep(fields, before, marks, ok, i);
      i := i + 1;
    }
    assert forall j :: 0 <= j < |fields| ==> marks[j] == target[j];
    NoRequiredErrorMeansAccepted(fields, before);
  }

  /** One iteration of that `forEach`: a required field gets the mark of its verdict, and the
      running flag drops when the field is not accepted; other fields are skipped. */
  method CheckStep(fields: seq<Field>, before: seq<Mark>, marks: seq<Mark>, ok: bool, i: nat)
    returns (marks': seq<Mark>, ok': bool)
    requires |before| == |fields| && |marks| == |fields| && i < |fields|
    requires marks[i] == before[i]
    ensures marks' == marks[i := MarksAfter(fields, before)[i]]
    ensures ok' <==> ok && !(fields[i].required && MarksAfter(fields, before)[i].Error?)
  {
    marks', ok' := marks, ok;
    if fields[i].required {
      var m, accepted := CheckField(fields[i]);
      marks' := marks[i := m];
      ok' := ok && accepted;
    }
  }

  /** A form element. Every control is assumed to carry the `form-control` class; the consent
      checkbox, when present, is modelled apart from the controls, as is the validation state
      of its `.form-group` (its `error` class and the message placed after it). */
  class Form {
    const controls: seq<Control>
    const hasConsent: bool
    const consentInitial: bool
    const hasSubmitButton: bool

    var values: seq<string>
    var consentChecked: bool
    var marks: seq<Mark>
    var consentGroupError: bool
    var consentMessageShown: bool
    var submitDisabled: bool
    var submitLoading: bool
    /** Completions scheduled by an accepted submission and not yet run. */
    ghost var pendingCompletions: nat

    ghost predicate Valid()
      reads this
    {
      && |values| == |controls| && |marks| == |controls|
      && submitDisabled == submitLoading
      && (submitDisabled ==> pendingCompletions > 0)
      && (pendingCompletions > 0 ==> hasSubmitButton)
      && (!hasConsent ==> !consentGroupError && !consentMessageShown)
    }

    /** The form's controls with their current values. */
    function Fields(): (fs: seq<Field>)
      reads this`values
      requires |values| == |controls|
      ensures |fs| == |controls|
    {
      FieldsOf(controls, values)
    }

    /** The validation marks `validateForm` leaves, given the marks before it ran: each
        required control carries the mark of its verdict, other controls keep theirs, and an
        unticked consent box marks its group with an error message. */
    ghost predicate ValidatedFrom(before: seq<Mark>, groupBefore: bool, messageBefore: bool)
      reads this
      requires |values| == |controls|
    {
      && |before| == |controls|
      && marks == MarksAfter(Fields(), before)
      && (if hasConsent && !consentChecked then consentGroupError && consentMessageShown
          else consentGroupError == groupBefore && consentMessageShown == messageBefore)
    }

    constructor (controls: seq<Control>, hasConsent: bool, consentInitial: bool, hasSubmitButton: bool)
      ensures Valid()
      ensures this.controls == controls && this.hasConsent == hasConsent
      ensures this.consentInitial == consentInitial && this.hasSubmitButton == hasSubmitButton
      ensures values == Initials(controls) && consentChecked == consentInitial
      ensures AllUnmarked(marks) && !consentGroupError && !consentMessageShown
      ensures !submitDisabled && pendingCompletions == 0
    {
      this.controls := controls;
      this.hasConsent := hasConsent;
      this.consentInitial := consentInitial;
      this.hasSubmitButton := hasSubmitButton;
      values := Initials(controls);
      consentChecked := consentInitial;
      marks := seq(|controls|, i => Unmarked);
      consentGroupError, consentMessageShown := false, false;
      submitDisabled, submitLoading := false, false;
      pendingCompletions := 0;
    }

    /** The user edits control `k`; `v` is the value it holds afterwards. */
    method SetValue(k: nat, v: string)
      requires Valid() && k < |controls|
      modifies this`values
      ensures Valid()
      ensures values == old(values)[k := v]
    {
      values := values[k := v];
    }

    /** The user ticks or unticks the consent box. */
    method SetConsent(checked: bool)
      requires Valid()
      modifies this`consentChecked
      ensures Valid() && consentChecked == checked
    {
      consentChecked := checked;
    }

    /** `validateForm`: marks every required control with the verdict of its check and
        reports whether the whole form is accepted. */
    method Validate() returns (ok: bool)
      requires Valid()
      modifies this`marks, this`consentGroupError, this`consentMessageShown
      ensures Valid()
      ensures ok <==> FormAccepted(Fields(), hasConsent, consentChecked)
      ensures ValidatedFrom(old(marks), old(consentGroupError), old(consentMessageShown))
    {
      var fields := Fields();
      var marked;
      marked, ok := CheckRequired(fields, marks);
      marks := marked;
      if hasConsent && !consentChecked {
        consentGroupError := true;
        consentMessageShown := true;
        ok := false;
      }
    }

    /** The first phase of `handleFormSubmission`: validate, and when the form is accepted put
        the submit button into its loading state and schedule the completion. Without a submit
        button the handler fails on `submitBtn.textContent` before it validates anything. */
    method Submit() returns (accepted: bool)
      requires Valid()
      modifies this`marks, this`consentGroupError, this`consentMessageShown
      modifies this`submitDisabled, this`submitLoading, this`pendingCompletions
      ensures Valid()
      ensures !hasSubmitButton ==> !accepted && unchanged(this)
      ensures hasSubmitButton ==> (accepted <==> FormAccepted(Fields(), hasConsent, consentChecked))
      ensures hasSubmitButton ==> ValidatedFrom(old(marks), old(consentGroupError), old(consentMessageShown))
      ensures accepted ==> submitDisabled && submitLoading && pendingCompletions == old(pendingCompletions) + 1
      ensures !accepted ==> submitDisabled == old(submitDisabled) && submitLoading == old(submitLoading)
      ensures !accepted ==> pendingCompletions == old(pendingCompletions)
    {
      if !hasSubmitButton {
        return false;
      }
      accepted := Validate();
      if !accepted {
        return;
      }
      submitLoading := true;
      submitDisabled := true;
      pendingCompletions := pendingCompletions + 1;
    }

    /** `form.reset()`: every control and the consent box return to their initial state; the
        validation marks are left as they are. */
    method Reset()
      requires Valid()
      modifies this`values, this`consentChecked
      ensures Valid()
      ensures values == Initials(controls) && consentChecked == consentInitial
    {
      values := Initials(controls);
      consentChecked := consentInitial;
    }

    /** `removeValidationClasses`: every control loses its `error` and `success` classes and
        every error message goes, the consent group's too; the group itself is not a
        `form-control` and keeps its `error` class. */
    method ClearValidation()
      requires Valid()
      modifies this`marks, this`consentMessageShown
      ensures Valid()
      ensures AllUnmarked(marks) && !consentMessageShown
    {
      var i := 0;
      while i < |marks|
        invariant 0 <= i <= |marks| && |marks| == |controls|
        invariant forall j :: 0 <= j < i ==> marks[j] == Unmarked
        modifies this`marks
      {
        marks := marks[i := Unmarked];
        i := i + 1;
      }
      consentMessageShown := false;
    }

    /** The timed second phase of `handleFormSubmission`, up to `showModal`: reset the form,
        clear the validation marks, and take the submit button out of its loading state. */
    method Complete()
      requires Valid() && pendingCompletions > 0
      modifies this`values, this`consentChecked, this`marks, this`consentMessageShown
      modifies this`submitDisabled, this`submitLoading, this`pendingCompletions
      ensures Valid()
      ensures values == Initials(controls) && consentChecked == consentInitial
      ensures AllUnmarked(marks) && !consentMessageShown
      ensures !submitDisabled && !submitLoading
      ensures pendingCompletions == old(pendingCompletions) - 1
    {
      Reset();
      ClearValidation();
      submitLoading := false;
      submitDisabled := false;
      pendingCompletions := pendingCompletions - 1;
    }
  }
}
