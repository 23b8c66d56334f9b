/** The validator: the e-mail and UK phone checks, the per-field verdict that `validateForm`
    derives for a required field, and the visual mark each verdict leaves on the field. */
module Validation {
  import opened Text

  /** `field.type`: the two input types that get a shape check, and every other type. */
  datatype InputType = EmailInput | TelInput | OtherInput

  /** One form control: its type, whether it carries the `required` attribute, its value. */
  datatype Field = Field(kind: InputType, required: bool, value: string)

  /** What checking one required field can find. */
  datatype Verdict = Valid | Missing | MalformedEmail | MalformedPhone

  /** The validation classes and message a field can carry: none, `success`, or `error`
      together with the text of the message element placed beside it. */
  datatype Mark = Unmarked | Success | Error(message: string)

  const RequiredMessage := "This field is required"
  const EmailMessage := "Please enter a valid email address"
  const PhoneMessage := "Please enter a valid phone number"
  const ConsentMessage := "Please agree to be contacted"

  // ---------------------------------------------------------------- e-mail

  /** The class `[^\s@]`. */
  predicate EmailChar(c: char) { !IsSpace(c) && c != '@' }

  predicate AllEmailChars(s: string) { forall i :: 0 <= i < |s| ==> EmailChar(s[i]) }

  /** The domain has a dot that is neither its first nor its last character. */
  predicate HasInnerDot(d: string) { |d| >= 3 && '.' in d[1..|d| - 1] }

  /** `isValidEmail`, written out by hand: no whitespace, a non-empty part before the first
      `@`, no second `@`, and a dot strictly inside the part after it. */
  predicate IsValidEmail(s: string) {
    var k := IndexOf(s, '@');
    && (forall i :: 0 <= i < |s| ==> !IsSpace(s[i]))
    && 0 < k < |s|
    && '@' !in s[k + 1..]
    && HasInnerDot(s[k + 1..])
  }

  /** `s` splits as the regular expression `^[^\s@]+@[^\s@]+\.[^\s@]+$` reads it. */
  ghost predicate EmailSplit(s: string, local: string, host: string, tld: string) {
    && |local| > 0 && |host| > 0 && |tld| > 0
    && AllEmailChars(local) && AllEmailChars(host) && AllEmailChars(tld)
    && s == local + "@" + host + "." + tld
  }

  /** The e-mail regular expression as a language: some split of `s` fits it. */
  ghost predicate MatchesEmailPattern(s: string) {
    exists local, host, tld :: EmailSplit(s, local, host, tld)
  }

  /** `IndexOf` finds the first occurrence. */
  lemma IndexOfFirst(s: string, c: char, n: nat)
    requires n < |s| && s[n] == c
    requires forall i :: 0 <= i < n ==> s[i] != c
    ensures IndexOf(s, c) == n
  {
  }

  /** Every string the hand-written check accepts fits the regular expression. */
  lemma EmailCheckSound(s: string)
    requires IsValidEmail(s)
    ensures MatchesEmailPattern(s)
  {
    var k := IndexOf(s, '@');
    var d := s[k + 1..];
    var m :| 0 <= m < |d| - 2 && d[1..|d| - 1][m] == '.';
    var j := m + 1;
    var local, host, tld := s[..k], d[..j], d[j + 1..];
    assert d == host + "." + tld;
    assert s == local + "@" + d;
    assert s == local + "@" + host + "." + tld;
    forall i | 0 <= i < |d| ensures EmailChar(d[i]) {
      assert d[i] == s[k + 1 + i];
    }
    assert AllEmailChars(host) && AllEmailChars(tld) by {
      forall i | 0 <= i < |host| ensures host[i] == d[i] { }
      forall i | 0 <= i < |tld| ensures tld[i] == d[j + 1 + i] { }
    }
    assert EmailSplit(s, local, host, tld);
  }

  /** Every string that fits the regular expression passes the hand-written check. */
  lemma EmailCheckComplete(s: string, local: string, host: string, tld: string)
    requires EmailSplit(s, local, host, tld)
    ensures IsValidEmail(s)
  {
    var d := host + "." + tld;
    var n := |local|;
    assert s == local + "@" + d;
    forall i | 0 <= i < |s| ensures !IsSpace(s[i]) && (i != n ==> s[i] != '@') {
      if i < n {
        assert s[i] == local[i];
      } else if i > n {
        var t := i - n - 1;
        assert s[i] == d[t];
        if t < |host| {
          assert d[t] == host[t];
        } else if t > |host| {
          assert d[t] == tld[t - |host| - 1];
        }
      }
    }
    IndexOfFirst(s, '@', n);
    assert s[n + 1..] == d;
    assert d[1..|d| - 1][|host| - 1] == '.';
  }

  /** The hand-written check accepts exactly the strings the regular expression matches. */
  lemma EmailCheckMatchesPattern(s: string)
    ensures IsValidEmail(s) <==> MatchesEmailPattern(s)
  {
    if IsValidEmail(s) {
      EmailCheckSound(s);
    }
    if MatchesEmailPattern(s) {
      var local, host, tld :| EmailSplit(s, local, host, tld);
      EmailCheckComplete(s, local, host, tld);
    }
  }

  // ---------------------------------------------------------------- phone

  /** The class `[0-9\s-]`. */
  predicate PhoneBodyChar(c: char) { IsDigit(c) || IsSpace(c) || c == '-' }

  /** `[0-9\s-]{9,13}`. */
  predicate PhoneBody(u: string) {
    9 <= |u| <= 13 && forall i :: 0 <= i < |u| ==> PhoneBodyChar(u[i])
  }

  /** `isValidPhone`, written out by hand: with all whitespace deleted, the value is `+44` or
      `0` followed by 9 to 13 characters of the body class. */
  predicate IsValidPhone(s: string) {
    var t := RemoveSpaces(s);
    if StartsWith(t, "+44") then PhoneBody(t[3..]) else StartsWith(t, "0") && PhoneBody(t[1..])
  }

  /** `t` splits as `^(\+44|0)[0-9\s-]{9,13}$` reads it. */
  ghost predicate PhoneSplit(t: string, prefix: string, body: string) {
    (prefix == "+44" || prefix == "0") && t == prefix + body && PhoneBody(body)
  }

  ghost predicate MatchesPhonePattern(t: string) {
    exists prefix, body :: PhoneSplit(t, prefix, body)
  }

  /** The hand-written check accepts exactly the values whose whitespace-free form the
      regular expression matches. */
  lemma PhoneCheckMatchesPattern(s: string)
    ensures IsValidPhone(s) <==> MatchesPhonePattern(RemoveSpaces(s))
  {
    var t := RemoveSpaces(s);
    if IsValidPhone(s) {
      if StartsWith(t, "+44") {
        assert t == "+44" + t[3..];
        assert PhoneSplit(t, "+44", t[3..]);
      } else {
        assert t == "0" + t[1..];
        assert PhoneSplit(t, "0", t[1..]);
      }
    }
    if MatchesPhonePattern(t) {
      var prefix, body :| PhoneSplit(t, prefix, body);
      if prefix == "+44" {
        assert t[..3] == prefix && t[3..] == body;
      } else {
        assert t[0] == '0' && t[..1] == prefix && t[1..] == body;
      }
    }
  }

  /** Whitespace anywhere in the value makes no difference to the phone check. */
  lemma PhoneIgnoresWhitespace(a: string, b: string, c: char)
    requires IsSpace(c)
    ensures IsValidPhone(a + [c] + b) == IsValidPhone(a + b)
  {
    FilterConcat(a + [c], b, NotSpace);
    FilterConcat(a, [c], NotSpace);
    FilterConcat(a, b, NotSpace);
    assert Filter([c], NotSpace) == [] by { FilterDropsAll([c], NotSpace); }
    assert RemoveSpaces(a + [c] + b) == RemoveSpaces(a + b);
  }

  /** `user@example.com` is an e-mail address, `user@` is not. */
  lemma EmailExampleAccepted()
    ensures IsValidEmail("user@example.com")
  {
    ExampleSplit();
    EmailCheckComplete("user@example.com", "user", "example", "com");
  }

  lemma ExampleSplit()
    ensures EmailSplit("user@example.com", "user", "example", "com")
  {
    assert "user@example.com" == "user" + "@" + "example" + "." + "com";
  }

  lemma EmailExampleRejected()
    ensures !IsValidEmail("user@")
  {
    IndexOfFirst("user@", '@', 4);
  }

  /** A national number, `0` followed by 9 to 13 digits, passes the phone check. */
  lemma NationalNumberAccepted(s: string)
    requires 10 <= |s| <= 14 && s[0] == '0' && AllDigits(s)
    ensures IsValidPhone(s)
  {
    forall i | 0 <= i < |s| ensures NotSpace(s[i]) {
      DigitNotSpace(s[i]);
    }
    FilterKeepsAll(s, NotSpace);
    assert !StartsWith(s, "+44") by { assert s[..3][0] == '0'; }
    assert s[..1] == "0";
  }

  /** A value with fewer than ten non-whitespace characters fails the phone check. */
  lemma ShortValueRejected(s: string)
    requires |RemoveSpaces(s)| < 10
    ensures !IsValidPhone(s)
  {
  }

  /** `07123456789` is a phone number, `123` is not. */
  lemma PhoneExamples()
    ensures IsValidPhone("07123456789")
    ensures !IsValidPhone("123")
  {
    NationalNumberAccepted("07123456789");
    ShortValueRejected("123");
  }

  // ---------------------------------------------------------------- fields

  /** `!field.value.trim()`: the value is empty once trimmed. */
  predicate Blank(s: string) { Trim(s) == [] }

  /** What `validateForm` accepts of one required field: some non-whitespace content, and
      the shape its type asks for. */
  predicate FieldAccepted(f: Field) {
    && !AllSpace(f.value)
    && (f.kind == EmailInput ==> IsValidEmail(f.value))
    && (f.kind == TelInput ==> IsValidPhone(f.value))
  }

  /** What `validateForm` accepts of a whole form: every required field, and the consent
      checkbox ticked when the form has one. */
  predicate FormAccepted(fields: seq<Field>, hasConsent: bool, consentChecked: bool) {
    && (forall i :: 0 <= i < |fields| && fields[i].required ==> FieldAccepted(fields[i]))
    && (hasConsent ==> consentChecked)
  }

  /** The verdict the loop body of `validateForm` reaches for one required field. An empty
      value is `Missing` whatever the field's type: it never reaches the shape checks. */
  function Check(f: Field): (v: Verdict)
    ensures v == Missing <==> AllSpace(f.value)
    ensures v == MalformedEmail ==> f.kind == EmailInput
    ensures v == MalformedPhone ==> f.kind == TelInput
    ensures v == Valid <==> FieldAccepted(f)
  {
    TrimEmptyIffAllSpace(f.value);
    if Blank(f.value) then Missing
    else if f.kind == EmailInput && !IsValidEmail(f.value) then MalformedEmail
    else if f.kind == TelInput && !IsValidPhone(f.value) then MalformedPhone
    else Valid
  }

  /** The mark `showFieldSuccess` / `showFieldError` leave for a verdict: every failing
      verdict ends as an error, each with its own message. */
  function MarkFor(v: Verdict): (m: Mark)
    ensures m.Error? <==> v != Valid
    ensures m.Error? ==> m.message != []
  {
    match v
    case Valid => Success
    case Missing => Error(RequiredMessage)
    case MalformedEmail => Error(EmailMessage)
    case MalformedPhone => Error(PhoneMessage)
  }
}
