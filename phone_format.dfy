/** The phone auto-formatter that `enhanceFormUX` attaches to every `tel` input: on each input
    event the value is reduced to its digits, a leading `44` or `0` becomes the `+44 ` prefix,
    and the subscriber digits are laid out in groups. */
module PhoneFormat {
  import opened Text
  import Validation

  // ------------------------------------------------------------ the code as written

  /** First step: a leading `44` or `0` becomes `+44 `; other digit strings stay as they are. */
  function Normalize(d: string): string {
    if StartsWith(d, "44") then "+44 " + d[2..]
    else if StartsWith(d, "0") then "+44 " + d[1..]
    else d
  }

  /** Second step, as written: cut the value after `+44` (which leaves the space of the
      prefix at the front of `numbers`), regroup it as 4, 3, 3 characters, and trim. */
  function Layout(v: string): string {
    if StartsWith(v, "+44") then
      var numbers := v[3..];
      if |numbers| > 4 then Trim(Regroup(numbers)) else Trim(v)
    else Trim(v)
  }

  /** `'+44 ' + numbers.substring(0, 4) + ' ' + numbers.substring(4, 7) + ' ' +
      numbers.substring(7, 10)`. */
  function Regroup(numbers: string): string {
    "+44 " + Substring(numbers, 0, 4) + " " + Substring(numbers, 4, 7) + " "
    + Substring(numbers, 7, 10)
  }

  /** The value the input handler writes back into a `tel` field. */
  function FormatPhone(input: string): string {
    Layout(Normalize(DigitsOf(input)))
  }

  // ------------------------------------------------------------ what it computes

  /** The digit string has one of the two prefixes the formatter recognises. */
  predicate HasPrefix(d: string) { StartsWith(d, "44") || StartsWith(d, "0") }

  /** The subscriber digits: what follows the recognised prefix (`44` wins over `0`). */
  function Rest(d: string): (r: string)
    requires HasPrefix(d)
    ensures |r| < |d| && r == d[|d| - |r|..]
  {
    if StartsWith(d, "44") then d[2..] else d[1..]
  }

  /** At most the first `n` characters of `r`, as `substring(0, n)`. */
  function Take(r: string, n: nat): (t: string)
    ensures t <= r && |t| == if |r| <= n then |r| else n
  {
    if |r| <= n then r else r[..n]
  }

  /** What the formatter produces from the subscriber digits `r`: a double space after
      `+44`, then groups of 3, 3 and 3 digits; a tenth digit and beyond is dropped. */
  function AsWrittenLayout(r: string): string {
    if |r| == 0 then "+44"
    else if |r| <= 3 then "+44 " + r
    else if |r| <= 6 then "+44  " + r[..3] + " " + r[3..]
    else "+44  " + r[..3] + " " + r[3..6] + " " + Take(r[6..], 3)
  }

  /** Appending a space is invisible to a filter that drops spaces. */
  lemma FilterSpace(s: string, keep: char -> bool)
    requires !keep(' ')
    ensures Filter(s + " ", keep) == Filter(s, keep)
  {
    FilterConcat(s, " ", keep);
  }

  /** Appending digits appends them to the result of a filter that keeps digits. */
  lemma FilterDigits(s: string, t: string, keep: char -> bool)
    requires AllDigits(t)
    requires forall c :: IsDigit(c) ==> keep(c)
    ensures Filter(s + t, keep) == Filter(s, keep) + t
  {
    FilterConcat(s, t, keep);
    FilterKeepsAll(t, keep);
  }

  /** Three consecutive groups cut from `r`, the last at most `n` long, are a prefix of `r`. */
  lemma RegroupedDigits(r: string, a: nat, b: nat, n: nat)
    requires a <= b < |r|
    ensures r[..a] + r[a..b] + Take(r[b..], n) == Take(r, b + n)
  {
    if |r| <= b + n {
      assert r[..a] + r[a..b] + r[b..] == r;
    } else {
      assert Take(r[b..], n) == r[b..b + n];
      assert r[..a] + r[a..b] + r[b..b + n] == r[..b + n];
    }
  }

  /** The spaces after `+44` are invisible to a filter that drops spaces. */
  lemma FilterPrefix(keep: char -> bool)
    requires !keep(' ')
    ensures Filter("+44 ", keep) == Filter("+44", keep)
    ensures Filter("+44  ", keep) == Filter("+44", keep)
  {
    FilterSpace("+44", keep);
    FilterSpace("+44 ", keep);
    assert "+44" + " " == "+44 ";
    assert "+44 " + " " == "+44  ";
  }

  /** A filter that keeps digits and drops spaces sees `p` and then the digit groups. */
  lemma FilterTwoGroups(p: string, a: string, b: string, keep: char -> bool)
    requires AllDigits(a) && AllDigits(b)
    requires forall c :: IsDigit(c) ==> keep(c)
    requires !keep(' ')
    ensures Filter(p + a + " " + b, keep) == Filter(p, keep) + (a + b)
  {
    FilterDigits(p + a + " ", b, keep);
    FilterSpace(p + a, keep);
    FilterDigits(p, a, keep);
  }

  lemma FilterThreeGroups(p: string, a: string, b: string, c: string, keep: char -> bool)
    requires AllDigits(a) && AllDigits(b) && AllDigits(c)
    requires forall x :: IsDigit(x) ==> keep(x)
    requires !keep(' ')
    ensures Filter(p + a + " " + b + " " + c, keep) == Filter(p, keep) + (a + b + c)
  {
    FilterDigits(p + a + " " + b + " ", c, keep);
    FilterSpace(p + a + " " + b, keep);
    FilterTwoGroups(p, a, b, keep);
  }

  /** `trim` of `+44 ` and at most three digits. */
  lemma TrimShort(r: string)
    requires AllDigits(r)
    ensures Trim("+44 " + r) == if r == [] then "+44" else "+44 " + r
  {
    var v := "+44 " + r;
    if r == [] {
      assert v == "+44" + [' '];
      TrimDropsTrailingSpace("+44", ' ');
      TrimNoEdgeSpace("+44");
    } else {
      assert v[0] == '+' && v[|v| - 1] == r[|r| - 1];
      TrimNoEdgeSpace(v);
    }
  }

  /** `trim` of a string that starts with `+` and ends with a digit, possibly followed by
      one space. */
  lemma TrimBody(body: string, trailing: bool)
    requires body != [] && body[0] == '+' && IsDigit(body[|body| - 1])
    ensures Trim(if trailing then body + " " else body) == body
  {
    if trailing {
      TrimDropsTrailingSpace(body, ' ');
    }
    TrimNoEdgeSpace(body);
  }

  /** Cutting `+44 ` after the `+44` leaves the prefix's space in front of the digits. */
  lemma CutAfterPlus44(r: string)
    ensures StartsWith("+44 " + r, "+44") && ("+44 " + r)[3..] == " " + r
  {
    assert ("+44 " + r)[..3] == "+44";
  }

  /** `substring` of a string with one leading character, from index 1 on, is `substring` of
      the rest shifted by one. */
  lemma SubstringShift(c: char, r: string, a: nat, b: nat)
    requires 1 <= a <= b
    ensures Substring([c] + r, a, b) == Substring(r, a - 1, b - 1)
  {
  }

  /** The first group cut from ` ` and at least three digits is the space and three digits. */
  lemma FirstGroup(r: string)
    requires |r| >= 3
    ensures Substring(" " + r, 0, 4) == " " + r[..3]
  {
  }

  /** `Regroup` of the prefix's space and four to six digits: the last group is empty. */
  lemma RegroupMid(r: string)
    requires 4 <= |r| <= 6
    ensures Regroup(" " + r) == "+44  " + r[..3] + " " + r[3..] + " "
  {
    FirstGroup(r);
    SubstringShift(' ', r, 4, 7);
    SubstringShift(' ', r, 7, 10);
    assert Substring(r, 3, 6) == r[3..];
    assert Substring(r, 6, 9) == [];
  }

  /** `Regroup` of the prefix's space and seven or more digits is `AsWrittenLayout`. */
  lemma RegroupLong(r: string)
    requires |r| >= 7
    ensures Regroup(" " + r) == AsWrittenLayout(r)
  {
    FirstGroup(r);
    SubstringShift(' ', r, 4, 7);
    SubstringShift(' ', r, 7, 10);
    assert Substring(r, 3, 6) == r[3..6];
    assert Substring(r, 6, 9) == Take(r[6..], 3);
  }

  /** The layout step on `+44 ` followed by digits gives `AsWrittenLayout`. */
  lemma LayoutOfPrefixed(r: string)
    requires AllDigits(r)
    ensures Layout("+44 " + r) == AsWrittenLayout(r)
  {
    CutAfterPlus44(r);
    if |r| <= 3 {
      TrimShort(r);
    } else if |r| <= 6 {
      RegroupMid(r);
      TrimBody("+44  " + r[..3] + " " + r[3..], true);
    } else {
      RegroupLong(r);
      TrimBody(AsWrittenLayout(r), false);
    }
  }

  /** The formatter's output, case by case: digit strings without a recognised prefix come
      back unchanged; otherwise the result is `AsWrittenLayout` of the subscriber digits. */
  lemma FormatPhoneAsWritten(input: string)
    ensures var d := DigitsOf(input);
            FormatPhone(input) == if HasPrefix(d) then AsWrittenLayout(Rest(d)) else d
  {
    var d := DigitsOf(input);
    if HasPrefix(d) {
      NormalizePrefixed(d);
      LayoutOfPrefixed(Rest(d));
    } else {
      UnprefixedUnchanged(d);
    }
  }

  /** A recognised prefix becomes `+44 `. */
  lemma NormalizePrefixed(d: string)
    requires HasPrefix(d)
    ensures Normalize(d) == "+44 " + Rest(d)
  {
  }

  /** A digit string without a recognised prefix passes both layouts unchanged. */
  lemma UnprefixedUnchanged(d: string)
    requires AllDigits(d) && !HasPrefix(d)
    ensures Normalize(d) == d
    ensures Layout(d) == d && IntendedLayout(d) == d
  {
    if d != [] {
      if |d| >= 3 {
        assert d[..3][0] == d[0];
      }
      if |d| >= 4 {
        assert d[..4][0] == d[0];
      }
      TrimNoEdgeSpace(d);
    }
  }

  /** Filtering `AsWrittenLayout(r)` with a filter that keeps digits and drops spaces leaves
      the filtered prefix followed by the first nine subscriber digits. */
  lemma FilterAsWrittenLayout(r: string, keep: char -> bool)
    requires AllDigits(r)
    requires forall c :: IsDigit(c) ==> keep(c)
    requires !keep(' ')
    ensures Filter(AsWrittenLayout(r), keep) == Filter("+44", keep) + Take(r, 9)
  {
    FilterPrefix(keep);
    if |r| == 0 {
    } else if |r| <= 3 {
      FilterDigits("+44 ", r, keep);
    } else if |r| <= 6 {
      FilterAsWrittenTwoGroups(r, keep);
    } else {
      FilterAsWrittenThreeGroups(r, keep);
    }
  }

  lemma FilterAsWrittenTwoGroups(r: string, keep: char -> bool)
    requires AllDigits(r) && 3 < |r| <= 6
    requires forall c :: IsDigit(c) ==> keep(c)
    requires !keep(' ')
    ensures Filter("+44  " + r[..3] + " " + r[3..], keep) == Filter("+44  ", keep) + r
  {
    FilterTwoGroups("+44  ", r[..3], r[3..], keep);
    assert r[..3] + r[3..] == r;
  }

  lemma FilterAsWrittenThreeGroups(r: string, keep: char -> bool)
    requires AllDigits(r) && 6 < |r|
    requires forall c :: IsDigit(c) ==> keep(c)
    requires !keep(' ')
    ensures Filter("+44  " + r[..3] + " " + r[3..6] + " " + Take(r[6..], 3), keep) == Filter("+44  ", keep) + Take(r, 9)
  {
    FilterThreeGroups("+44  ", r[..3], r[3..6], Take(r[6..], 3), keep);
    RegroupedDigits(r, 3, 6, 3);
  }

  /** The digits of the output: a prefixed number keeps `44` and at most nine subscriber
      digits. */
  lemma DigitsOfFormatted(input: string)
    ensures var d := DigitsOf(input);
            DigitsOf(FormatPhone(input)) == if HasPrefix(d) then "44" + Take(Rest(d), 9) else d
  {
    var d := DigitsOf(input);
    FormatPhoneAsWritten(input);
    if HasPrefix(d) {
      DigitsOfAsWrittenLayout(Rest(d));
    } else {
      FilterKeepsAll(d, IsDigit);
    }
  }

  lemma DigitsOfAsWrittenLayout(r: string)
    requires AllDigits(r)
    ensures DigitsOf(AsWrittenLayout(r)) == "44" + Take(r, 9)
  {
    FilterAsWrittenLayout(r, IsDigit);
    assert Filter("+44", IsDigit) == "44";
  }

  lemma SpacesOfAsWrittenLayout(r: string)
    requires AllDigits(r)
    ensures RemoveSpaces(AsWrittenLayout(r)) == "+44" + Take(r, 9)
  {
    forall c | IsDigit(c) ensures NotSpace(c) {
      DigitNotSpace(c);
    }
    FilterAsWrittenLayout(r, NotSpace);
    assert Filter("+44", NotSpace) == "+44";
  }

  /** The layout only looks at the first nine subscriber digits. */
  lemma AsWrittenLayoutTakesNine(r: string)
    ensures AsWrittenLayout(Take(r, 9)) == AsWrittenLayout(r)
  {
    if |r| > 9 {
      var t := Take(r, 9);
      assert t[..3] == r[..3] && t[3..6] == r[3..6];
      assert Take(t[6..], 3) == Take(r[6..], 3);
    }
  }

  /** Running the formatter on its own output changes nothing: the handler runs on every
      input event, so the value must be a fixed point. */
  lemma FormatPhoneIdempotent(input: string)
    ensures FormatPhone(FormatPhone(input)) == FormatPhone(input)
  {
    var d := DigitsOf(input);
    var y := FormatPhone(input);
    FormatPhoneAsWritten(input);
    DigitsOfFormatted(input);
    FormatPhoneAsWritten(y);
    if HasPrefix(d) {
      var d' := "44" + Take(Rest(d), 9);
      assert d'[..2] == "44";
      assert Rest(d') == Take(Rest(d), 9);
      AsWrittenLayoutTakesNine(Rest(d));
    }
  }

  /** A digit string with neither prefix is never a valid phone number. */
  lemma UnprefixedDigitsRejected(d: string)
    requires AllDigits(d) && !HasPrefix(d)
    ensures !Validation.IsValidPhone(d)
  {
    forall i | 0 <= i < |d| ensures NotSpace(d[i]) {
      DigitNotSpace(d[i]);
    }
    FilterKeepsAll(d, NotSpace);
    if |d| >= 3 {
      assert d[..3][0] == d[0];
    }
    if d != [] {
      assert d[..1][0] == d[0];
    }
  }

  /** The laid-out number is a valid phone number exactly when it has nine subscriber
      digits. */
  lemma AsWrittenLayoutValid(r: string)
    requires AllDigits(r)
    ensures Validation.IsValidPhone(AsWrittenLayout(r)) <==> |r| >= 9
  {
    SpacesOfAsWrittenLayout(r);
    var t := "+44" + Take(r, 9);
    assert t[..3] == "+44" && t[3..] == Take(r, 9);
    forall i | 0 <= i < |Take(r, 9)| ensures Validation.PhoneBodyChar(Take(r, 9)[i]) {
      assert Take(r, 9)[i] == r[i];
    }
  }

  /** The output passes `isValidPhone` exactly when the digits carried a recognised prefix
      and at least nine subscriber digits. */
  lemma FormattedIsValidPhone(input: string)
    ensures var d := DigitsOf(input);
            Validation.IsValidPhone(FormatPhone(input)) <==> HasPrefix(d) && |Rest(d)| >= 9
  {
    var d := DigitsOf(input);
    FormatPhoneAsWritten(input);
    if HasPrefix(d) {
      AsWrittenLayoutValid(Rest(d));
    } else {
      UnprefixedDigitsRejected(d);
    }
  }

  /** A UK number typed in national form, `0` and ten digits, comes out with a double space
      after `+44` and without its last digit. */
  lemma NationalNumberLosesLastDigit(r: string)
    requires |r| == 10 && AllDigits(r)
    ensures FormatPhone("0" + r) == "+44  " + r[..3] + " " + r[3..6] + " " + r[6..9]
    ensures DigitsOf(FormatPhone("0" + r)) == "44" + r[..9]
  {
    NationalFormatted(r);
    TenDigitsAsWritten(r);
    DigitsOfAsWrittenLayout(r);
  }

  /** Ten subscriber digits, laid out as written. */
  lemma TenDigitsAsWritten(r: string)
    requires |r| == 10
    ensures AsWrittenLayout(r) == "+44  " + r[..3] + " " + r[3..6] + " " + r[6..9]
    ensures Take(r, 9) == r[..9]
  {
    assert Take(r[6..], 3) == r[6..9];
  }

  lemma NationalFormatted(r: string)
    requires AllDigits(r)
    ensures FormatPhone("0" + r) == AsWrittenLayout(r)
  {
    NationalDigits(r);
    FormatPhoneAsWritten("0" + r);
  }

  /** `0` followed by digits is its own digit string, with `0` as its prefix. */
  lemma NationalDigits(r: string)
    requires AllDigits(r)
    ensures DigitsOf("0" + r) == "0" + r
    ensures HasPrefix("0" + r) && Rest("0" + r) == r
  {
    var s := "0" + r;
    forall i | 0 <= i < |s| ensures IsDigit(s[i]) {
      if i > 0 {
        assert s[i] == r[i - 1];
      }
    }
    FilterKeepsAll(s, IsDigit);
    if |s| >= 2 {
      assert s[..2][0] == '0';
    }
    assert s[..1] == "0";
  }

  /** The mobile number `07123456789` becomes `+44  712 345 678`: its last digit is gone. */
  lemma MobileNumberLosesLastDigit(typed: string, r: string)
    requires r == "7123456789" && typed == "0" + r
    ensures FormatPhone(typed) == "+44  " + r[..3] + " " + r[3..6] + " " + r[6..9]
    ensures DigitsOf(FormatPhone(typed)) == "44" + r[..9]
  {
    assert AllDigits(r);
    NationalNumberLosesLastDigit(r);
  }

  // ------------------------------------------------------------ the layout the comment asks for

  /** Second step as the comment `+44 XXXX XXX XXX` intends it: cut after `+44 `, so the
      groups are 4, 3 and 3 subscriber digits. */
  function IntendedLayout(v: string): string {
    if StartsWith(v, "+44 ") then
      var numbers := v[4..];
      if |numbers| > 4 then Trim(Regroup(numbers)) else Trim(v)
    else Trim(v)
  }

  function FormatPhoneIntended(input: string): string {
    IntendedLayout(Normalize(DigitsOf(input)))
  }

  /** What the intended formatter produces from the subscriber digits `r`. */
  function IntendedGroups(r: string): string {
    if |r| == 0 then "+44"
    else if |r| <= 4 then "+44 " + r
    else if |r| <= 7 then "+44 " + r[..4] + " " + r[4..]
    else "+44 " + r[..4] + " " + r[4..7] + " " + Take(r[7..], 3)
  }

  lemma IntendedLayoutOfPrefixed(r: string)
    requires AllDigits(r)
    ensures IntendedLayout("+44 " + r) == IntendedGroups(r)
  {
    var v := "+44 " + r;
    assert v[..4] == "+44 ";
    assert v[4..] == r;
    if |r| <= 4 {
      TrimShort(r);
    } else {
      assert Substring(r, 0, 4) == r[..4];
      if |r| <= 7 {
        assert Substring(r, 4, 7) == r[4..];
        assert Substring(r, 7, 10) == [];
        var body := "+44 " + r[..4] + " " + r[4..];
        assert Regroup(r) == body + " ";
        TrimBody(body, true);
      } else {
        assert Substring(r, 4, 7) == r[4..7];
        assert Substring(r, 7, 10) == Take(r[7..], 3);
        assert Regroup(r) == IntendedGroups(r);
        TrimBody(IntendedGroups(r), false);
      }
    }
  }

  /** The intended formatter: digit strings without a recognised prefix come back
      unchanged, others as `IntendedGroups` of the subscriber digits. */
  lemma FormatPhoneIntendedResult(input: string)
    ensures var d := DigitsOf(input);
            FormatPhoneIntended(input) == if HasPrefix(d) then IntendedGroups(Rest(d)) else d
  {
    var d := DigitsOf(input);
    if HasPrefix(d) {
      NormalizePrefixed(d);
      IntendedLayoutOfPrefixed(Rest(d));
    } else {
      UnprefixedUnchanged(d);
    }
  }

  lemma FilterIntendedGroups(r: string, keep: char -> bool)
    requires AllDigits(r)
    requires forall c :: IsDigit(c) ==> keep(c)
    requires !keep(' ')
    ensures Filter(IntendedGroups(r), keep) == Filter("+44", keep) + Take(r, 10)
  {
    FilterPrefix(keep);
    if |r| == 0 {
    } else if |r| <= 4 {
      FilterDigits("+44 ", r, keep);
    } else if |r| <= 7 {
      FilterIntendedTwoGroups(r, keep);
    } else {
      FilterIntendedThreeGroups(r, keep);
    }
  }

  lemma FilterIntendedTwoGroups(r: string, keep: char -> bool)
    requires AllDigits(r) && 4 < |r| <= 7
    requires forall c :: IsDigit(c) ==> keep(c)
    requires !keep(' ')
    ensures Filter("+44 " + r[..4] + " " + r[4..], keep) == Filter("+44 ", keep) + r
  {
    FilterTwoGroups("+44 ", r[..4], r[4..], keep);
    assert r[..4] + r[4..] == r;
  }

  lemma FilterIntendedThreeGroups(r: string, keep: char -> bool)
    requires AllDigits(r) && 7 < |r|
    requires forall c :: IsDigit(c) ==> keep(c)
    requires !keep(' ')
    ensures Filter("+44 " + r[..4] + " " + r[4..7] + " " + Take(r[7..], 3), keep) == Filter("+44 ", keep) + Take(r, 10)
  {
    FilterThreeGroups("+44 ", r[..4], r[4..7], Take(r[7..], 3), keep);
    RegroupedDigits(r, 4, 7, 3);
  }

  /** The intended formatter keeps every digit of a subscriber number of up to ten digits,
      and lays a ten-digit one out as `+44 XXXX XXX XXX`. */
  lemma IntendedKeepsTenDigits(input: string)
    requires HasPrefix(DigitsOf(input)) && |Rest(DigitsOf(input))| <= 10
    ensures DigitsOf(FormatPhoneIntended(input)) == "44" + Rest(DigitsOf(input))
    ensures var r := Rest(DigitsOf(input));
            |r| == 10 ==> FormatPhoneIntended(input) == "+44 " + r[..4] + " " + r[4..7] + " " + r[7..]
  {
    var r := Rest(DigitsOf(input));
    FormatPhoneIntendedResult(input);
    FilterIntendedGroups(r, IsDigit);
    assert Filter("+44", IsDigit) == "44";
    if |r| == 10 {
      assert Take(r[7..], 3) == r[7..];
    }
  }

  /** The digits of an intended layout are `44` and at most ten subscriber digits. */
  lemma DigitsOfIntendedGroups(r: string)
    requires AllDigits(r)
    ensures DigitsOf(IntendedGroups(r)) == "44" + Take(r, 10)
    ensures HasPrefix("44" + Take(r, 10)) && Rest("44" + Take(r, 10)) == Take(r, 10)
  {
    FilterIntendedGroups(r, IsDigit);
    assert Filter("+44", IsDigit) == "44";
    var d' := "44" + Take(r, 10);
    assert d'[..2] == "44";
  }

  /** Digits past the tenth make no difference to the intended layout. */
  lemma IntendedGroupsTake(r: string)
    ensures IntendedGroups(Take(r, 10)) == IntendedGroups(r)
  {
    if |r| > 10 {
      var t := Take(r, 10);
      assert t[..4] == r[..4] && t[4..7] == r[4..7];
      assert Take(t[7..], 3) == Take(r[7..], 3);
    }
  }

  /** The intended formatter is a fixed point on its own output, like the written one. */
  lemma FormatPhoneIntendedIdempotent(input: string)
    ensures FormatPhoneIntended(FormatPhoneIntended(input)) == FormatPhoneIntended(input)
  {
    var d := DigitsOf(input);
    var y := FormatPhoneIntended(input);
    FormatPhoneIntendedResult(input);
    FormatPhoneIntendedResult(y);
    if HasPrefix(d) {
      var r := Rest(d);
      DigitsOfIntendedGroups(r);
      IntendedGroupsTake(r);
    } else {
      FilterKeepsAll(d, IsDigit);
    }
  }

  /** The intended formatter lays the same mobile number out as `+44 7123 456 789`. */
  lemma MobileNumberKeptByIntendedLayout(typed: string, r: string)
    requires r == "7123456789" && typed == "0" + r
    ensures FormatPhoneIntended(typed) == "+44 " + r[..4] + " " + r[4..7] + " " + r[7..]
    ensures DigitsOf(FormatPhoneIntended(typed)) == "44" + r
  {
    assert AllDigits(r);
    NationalDigits(r);
    IntendedKeepsTenDigits(typed);
  }
}
