/**
 * Display formatting for CV dates and phone numbers: `Present` for an open
 * end date, `Month YYYY` for the `YYYY-MM` and `MM/YYYY` forms, and the
 * international rewrite of a phone number.
 */
module DateFormatter {
  import opened Wrappers
  import opened Text

  const Months: seq<string> := [
    "January", "February", "March", "April", "May", "June",
    "July", "August", "September", "October", "November", "December"
  ]

  /** `${year}` for a full year, which is negative only before year 0. */
  function YearText(y: int): string {
    if y < 0 then "-" + NatToString(-y) else NatToString(y)
  }

  /** `${month} ${year}` for a month index 0..11 of a given year. */
  function MonthYear(monthIndex: nat, year: int): string
    requires monthIndex < 12
  {
    Months[monthIndex] + " " + YearText(year)
  }

  predicate DigitsAt(s: string, lo: nat, hi: nat)
    requires lo <= hi <= |s|
  {
    forall i :: lo <= i < hi ==> IsDigit(s[i])
  }

  /** `/^\d{4}-\d{2}$/` */
  predicate IsYearMonth(s: string) {
    |s| == 7 && DigitsAt(s, 0, 4) && s[4] == '-' && DigitsAt(s, 5, 7)
  }

  /** `/^\d{4}-\d{2}-\d{2}$/` */
  predicate IsFullIsoDate(s: string) {
    |s| == 10 && DigitsAt(s, 0, 4) && s[4] == '-' && DigitsAt(s, 5, 7) && s[7] == '-' && DigitsAt(s, 8, 10)
  }

  /** `/^\d{2}\/\d{4}$/` */
  predicate IsMonthSlashYear(s: string) {
    |s| == 7 && DigitsAt(s, 0, 2) && s[2] == '/' && DigitsAt(s, 3, 7)
  }

  /** `Number(s)` of a run of decimal digits. */
  function Digits(s: string, lo: nat, hi: nat): nat
    requires lo <= hi <= |s| && DigitsAt(s, lo, hi)
  {
    DecimalValue(s[lo..hi])
  }

  /**
   * The month and year of `new Date(y + '-' + mm + '-01')` read back with the
   * local-time getters. The string is a date-only ISO form, which the date
   * parser reads as midnight UTC; on a host whose zone lies west of UTC that
   * instant falls on the last day of the previous month.
   */
  function IsoMonthYear(year: nat, month: nat, westOfUtc: bool): (r: Option<string>)
    ensures (month < 1 || month > 12) <==> r.None?
  {
    if month < 1 || month > 12 then None
    else if !westOfUtc then Some(MonthYear(month - 1, year))
    else if month == 1 then Some(MonthYear(11, year - 1))
    else Some(MonthYear(month - 2, year))
  }

  /**
   * `new Date(year, month - 1)` read back: a two-digit year is taken as
   * 19xx, and a month index outside 0..11 carries into the year.
   */
  function LocalMonthYear(year: nat, month: nat): (r: string) {
    var fullYear := if year <= 99 then 1900 + year else year;
    var total := fullYear * 12 + month - 1;
    MonthYear(total % 12, total / 12)
  }

  /**
   * `formatDateForCV(dateString)`. The full-ISO form and every other
   * string go to the engine's general date parser, which is not part of
   * this model: for those the result is None.
   */
  function FormatDateForCV(dateString: string, westOfUtc: bool): (r: Option<string>)
    ensures dateString == "" || dateString == "Present" ==> r == Some("Present")
    ensures dateString != "" && dateString != "Present" && (IsYearMonth(dateString) || IsMonthSlashYear(dateString)) ==> r.Some?
  {
    if dateString == "" || dateString == "Present" then Some("Present")
    else if IsYearMonth(dateString) then
      match IsoMonthYear(Digits(dateString, 0, 4), Digits(dateString, 5, 7), westOfUtc)
      case None => Some(dateString)
      case Some(text) => Some(text)
    else if IsFullIsoDate(dateString) then None
    else if IsMonthSlashYear(dateString) then
      Some(LocalMonthYear(Digits(dateString, 3, 7), Digits(dateString, 0, 2)))
    else None
  }

  /**
   * A `YYYY-MM` date with a month 01..12 comes out as that month's name and
   * the year read back from its four digits (on a host at or east of UTC).
   */
  lemma YearMonthFormatted(s: string)
    requires IsYearMonth(s) && 1 <= Digits(s, 5, 7) <= 12
    ensures FormatDateForCV(s, false) == Some(Months[Digits(s, 5, 7) - 1] + " " + NatToString(Digits(s, 0, 4)))
    ensures DecimalValue(FormatDateForCV(s, false).value[|Months[Digits(s, 5, 7) - 1]| + 1..]) == Digits(s, 0, 4)
  {
    var head := Months[Digits(s, 5, 7) - 1] + " ";
    var year := NatToString(Digits(s, 0, 4));
    assert (head + year)[|head|..] == year;
    DecimalRoundTrip(Digits(s, 0, 4));
  }

  /** A `YYYY-MM` date with month 00 or 13..99 is an invalid date and comes back unchanged. */
  lemma YearMonthInvalidUnchanged(s: string, westOfUtc: bool)
    requires IsYearMonth(s) && (Digits(s, 5, 7) == 0 || Digits(s, 5, 7) > 12)
    ensures FormatDateForCV(s, westOfUtc) == Some(s)
  {
  }

  /** An `MM/YYYY` date with a month 01..12 names that month; years 0000..0099 are read as 1900..1999. */
  lemma MonthSlashYearFormatted(s: string)
    requires IsMonthSlashYear(s) && 1 <= Digits(s, 0, 2) <= 12
    ensures FormatDateForCV(s, false) == FormatDateForCV(s, true)
    ensures FormatDateForCV(s, false) == Some(Months[Digits(s, 0, 2) - 1] + " " +
      NatToString(if Digits(s, 3, 7) <= 99 then 1900 + Digits(s, 3, 7) else Digits(s, 3, 7)))
  {
    var y := Digits(s, 3, 7);
    var fullYear := if y <= 99 then 1900 + y else y;
    var m := Digits(s, 0, 2);
    var total := fullYear * 12 + m - 1;
    assert total / 12 == fullYear && total % 12 == m - 1;
  }

  /** Month 00 of an `MM/YYYY` date carries back into December of the year before. */
  lemma MonthZeroIsPreviousDecember(s: string)
    requires IsMonthSlashYear(s) && Digits(s, 0, 2) == 0 && Digits(s, 3, 7) >= 100
    ensures FormatDateForCV(s, false) == Some("December " + NatToString(Digits(s, 3, 7) - 1))
  {
    var y := Digits(s, 3, 7);
    assert s != "Present" by { assert "Present"[2] != s[2]; }
    assert LocalMonthYear(y, 0) == MonthYear(11, y - 1) by {
      var total := y * 12 - 1;
      assert total / 12 == y - 1 && total % 12 == 11;
    }
    assert !IsYearMonth(s) && !IsFullIsoDate(s);
    assert FormatDateForCV(s, false) == Some(LocalMonthYear(y, 0));
    assert Months[11] + " " + YearText(y - 1) == "December " + NatToString(y - 1);
  }

  /** Month 13 of an `MM/YYYY` date carries forward into January of the year after. */
  lemma MonthThirteenIsNextJanuary(s: string)
    requires IsMonthSlashYear(s) && Digits(s, 0, 2) == 13 && Digits(s, 3, 7) >= 100
    ensures FormatDateForCV(s, false) == Some("January " + NatToString(Digits(s, 3, 7) + 1))
  {
    var y := Digits(s, 3, 7);
    assert s != "Present" by { assert "Present"[2] != s[2]; }
    assert LocalMonthYear(y, 13) == MonthYear(0, y + 1) by {
      var total := y * 12 + 12;
      assert total / 12 == y + 1 && total % 12 == 0;
    }
    assert !IsYearMonth(s) && !IsFullIsoDate(s);
    assert FormatDateForCV(s, false) == Some(LocalMonthYear(y, 13));
    assert Months[0] + " " + YearText(y + 1) == "January " + NatToString(y + 1);
  }

  /**
   * On a host west of UTC a `YYYY-MM` date is shown one month early: the
   * date-only string is read as midnight UTC, which is still the previous
   * month in local time.
   */
  lemma YearMonthEarlyWestOfUtc(s: string)
    requires IsYearMonth(s) && 2 <= Digits(s, 5, 7) <= 12
    ensures FormatDateForCV(s, true) == Some(Months[Digits(s, 5, 7) - 2] + " " + NatToString(Digits(s, 0, 4)))
  {
  }

  /**
   * West of UTC, January of a `YYYY-MM` date is shown as December of the
   * year before; for the year 0000 that year is -1.
   */
  lemma JanuaryWestOfUtcIsPreviousDecember(s: string)
    requires IsYearMonth(s) && Digits(s, 5, 7) == 1
    ensures FormatDateForCV(s, true) == Some("December " + YearText(Digits(s, 0, 4) - 1))
    ensures Digits(s, 0, 4) == 0 ==> FormatDateForCV(s, true) == Some("December -1")
  {
    var y := Digits(s, 0, 4);
    assert s != "Present" by { assert "Present"[4] != s[4]; }
    assert IsoMonthYear(y, 1, true) == Some(MonthYear(11, y as int - 1));
    assert FormatDateForCV(s, true) == Some(MonthYear(11, y as int - 1));
    assert MonthYear(11, y as int - 1) == "December " + YearText(y as int - 1);
    if y == 0 {
      assert NatToString(1) == "1";
      assert YearText(-1) == "-1";
      assert "December " + "-1" == "December -1";
    }
  }

  /** A concrete date that shows the early month. */
  lemma March2020WestOfUtc(s: string)
    requires s == "2020-03"
    ensures FormatDateForCV(s, true) == Some("February 2020")
    ensures FormatDateForCV(s, false) == Some("March 2020")
  {
    assert IsYearMonth(s);
    var mm, yyyy := s[5..7], s[..4];
    assert mm[..1] == "0" && yyyy[..3] == "202" && yyyy[..3][..2] == "20" && yyyy[..3][..2][..1] == "2";
    assert DecimalValue(mm[..1]) == 0 by { assert mm[..1][..0] == []; }
    assert DecimalValue(mm) == 3;
    assert DecimalValue("2") == 2 by { assert "2"[..0] == []; }
    assert DecimalValue("20") == 20 by { assert "20"[..1] == "2"; }
    assert DecimalValue("202") == 202 by { assert "202"[..2] == "20"; }
    assert DecimalValue(yyyy) == 2020 by { assert yyyy[..3] == "202"; }
    assert Digits(s, 5, 7) == 3 && Digits(s, 0, 4) == 2020;
    assert NatToString(2020) == "2020";
    assert s != "Present" by { assert "Present"[0] != s[0]; }
    assert Months[1] + " " + "2020" == "February 2020";
    assert Months[2] + " " + "2020" == "March 2020";
  }

  /**
   * The evidently intended reading of a `YYYY-MM` date: as a local date, as
   * the `MM/YYYY` branch already does, so that the host's zone plays no part.
   */
  function FormatDateLocal(dateString: string): Option<string> {
    if IsYearMonth(dateString) then
      var month := Digits(dateString, 5, 7);
      if 1 <= month <= 12 then Some(MonthYear(month - 1, Digits(dateString, 0, 4))) else Some(dateString)
    else FormatDateForCV(dateString, false)
  }

  /** Read as a local date, a `YYYY-MM` date is shown in the month its digits name. */
  lemma YearMonthLocalNamesItsMonth(s: string)
    requires IsYearMonth(s) && 1 <= Digits(s, 5, 7) <= 12
    ensures FormatDateLocal(s) == Some(Months[Digits(s, 5, 7) - 1] + " " + NatToString(Digits(s, 0, 4)))
    ensures FormatDateLocal(s) == FormatDateForCV(s, false)
  {
    YearMonthFormatted(s);
  }

  // ----- Phone numbers -----

  /** What `formatPhoneInternational` gives back: a string, or a thrown TypeError. */
  datatype PhoneResult = Phone(text: string) | TypeError

  /** `s.replace(/[^\d+]/g, '')` */
  function KeepDigitsAndPlus(s: string): (r: string)
    ensures |r| <= |s|
    ensures forall i :: 0 <= i < |r| ==> IsDigit(r[i]) || r[i] == '+'
    ensures (forall i :: 0 <= i < |s| ==> IsDigit(s[i]) || s[i] == '+') ==> r == s
  {
    if s == [] then []
    else (if IsDigit(s[0]) || s[0] == '+' then [s[0]] else []) + KeepDigitsAndPlus(s[1..])
  }

  /** `s.replace(/\D/g, '')` */
  function KeepDigits(s: string): (r: string)
    ensures |r| <= |s|
    ensures forall i :: 0 <= i < |r| ==> IsDigit(r[i])
    ensures (forall i :: 0 <= i < |s| ==> IsDigit(s[i])) ==> r == s
  {
    if s == [] then []
    else (if IsDigit(s[0]) then [s[0]] else []) + KeepDigits(s[1..])
  }

  /** The number of digits `s` starts with. */
  function LeadingDigits(s: string): (n: nat)
    ensures n <= |s| && DigitsAt(s, 0, n)
    ensures n < |s| ==> !IsDigit(s[n])
  {
    if s != [] && IsDigit(s[0]) then 1 + LeadingDigits(s[1..]) else 0
  }

  /**
   * The length of `s.match(/^\+\d{1,3}/)[0]` for a string starting with `+`,
   * or None when the match fails; the `{1,3}` is greedy.
   */
  function CountryCodeLength(s: string): (r: Option<nat>)
    requires StartsWith(s, "+")
    ensures r.None? <==> |s| == 1 || !IsDigit(s[1])
    ensures r.Some? ==> 2 <= r.value <= 4 && r.value <= |s| && DigitsAt(s, 1, r.value)
    ensures r.Some? && r.value < 4 && r.value < |s| ==> !IsDigit(s[r.value])
  {
    var n := LeadingDigits(s[1..]);
    if n == 0 then None
    else if n > 3 then Some(4)
    else Some(1 + n)
  }

  /** The digit-and-plus form, with `+1` put in front of exactly ten characters that have no leading `+`. */
  function Cleaned(phone: string): string {
    var c := KeepDigitsAndPlus(phone);
    if !StartsWith(c, "+") && |c| == 10 then "+1" + c else c
  }

  /** `+1 ddd ddd dddd` */
  function Spaced(rest: string): (r: string)
    requires |rest| == 10
    ensures |r| == 15 && r[..3] == "+1 " && r[6] == ' ' && r[10] == ' '
  {
    "+1 " + rest[..3] + " " + rest[3..6] + " " + rest[6..]
  }

  /** `formatPhoneInternational(phone)` as written; the empty string stands for every falsy value. */
  function FormatPhoneInternational(phone: string): (r: PhoneResult) {
    if phone == "" then Phone(phone)
    else
      var cleaned := Cleaned(phone);
      if StartsWith(cleaned, "+") then
        match CountryCodeLength(cleaned)
        case None => TypeError
        case Some(n) =>
          var rest := KeepDigits(cleaned[n..]);
          if cleaned[..n] == "+1" && |rest| == 10 then Phone(Spaced(rest)) else Phone(cleaned)
      else Phone(phone)
  }

  /** The same steps on a variable that is reassigned as the source does. */
  method FormatPhone(phone: string) returns (r: PhoneResult)
    ensures r == FormatPhoneInternational(phone)
  {
    if phone == "" {
      return Phone(phone);
    }
    var cleaned := KeepDigitsAndPlus(phone);
    if !StartsWith(cleaned, "+") {
      if |cleaned| == 10 {
        cleaned := "+1" + cleaned;
      }
    }
    if StartsWith(cleaned, "+") {
      var countryCode := CountryCodeLength(cleaned);
      if countryCode.None? {
        return TypeError;
      }
      var rest := KeepDigits(cleaned[countryCode.value..]);
      if cleaned[..countryCode.value] == "+1" && |rest| == 10 {
        return Phone(Spaced(rest));
      }
      return Phone(cleaned);
    }
    return Phone(phone);
  }

  /** A missing number comes back as it was. */
  lemma PhoneFalsyUnchanged()
    ensures FormatPhoneInternational("") == Phone("")
  {
  }

  /** A number with no `+` and other than ten digits comes back exactly as it was given. */
  lemma PhoneKeptWithoutCountryCode(phone: string)
    requires phone != "" && !StartsWith(KeepDigitsAndPlus(phone), "+") && |KeepDigitsAndPlus(phone)| != 10
    ensures FormatPhoneInternational(phone) == Phone(phone)
  {
  }

  /** A `+` that no digit follows makes the source throw instead of returning. */
  lemma PhonePlusWithoutDigitThrows(phone: string)
    requires phone != "" && StartsWith(Cleaned(phone), "+")
    requires |Cleaned(phone)| == 1 || !IsDigit(Cleaned(phone)[1])
    ensures FormatPhoneInternational(phone) == TypeError
  {
  }

  /** The cleaned number holds only digits and `+`. */
  lemma CleanedChars(phone: string)
    ensures forall i :: 0 <= i < |Cleaned(phone)| ==> IsDigit(Cleaned(phone)[i]) || Cleaned(phone)[i] == '+'
  {
    var k := KeepDigitsAndPlus(phone);
    if !StartsWith(k, "+") && |k| == 10 {
      var c := "+1" + k;
      forall i | 0 <= i < |c| ensures IsDigit(c[i]) || c[i] == '+' {
        if i >= 2 { assert c[i] == k[i - 2]; }
      }
    }
  }

  /** A number given with a leading `+` keeps it through cleaning. */
  lemma CleanedKeepsPlus(phone: string)
    requires StartsWith(phone, "+")
    ensures StartsWith(Cleaned(phone), "+")
  {
    assert KeepDigitsAndPlus(phone) == [phone[0]] + KeepDigitsAndPlus(phone[1..]);
  }

  /** The spaced form comes from the `+1` branch, and only from a `+1` code that no digit follows. */
  lemma SpacedNeedsPlusOnePlus(phone: string)
    requires phone != ""
    requires FormatPhoneInternational(phone).Phone? && StartsWith(FormatPhoneInternational(phone).text, "+1 ")
    ensures StartsWith(Cleaned(phone), "+1+") && |KeepDigits(Cleaned(phone)[2..])| == 10
  {
    var c := Cleaned(phone);
    CleanedChars(phone);
    if StartsWith(phone, "+") { CleanedKeepsPlus(phone); }
    if StartsWith(c, "+") && CountryCodeLength(c).Some? {
      var n := CountryCodeLength(c).value;
      if c[..n] == "+1" && |KeepDigits(c[n..])| == 10 {
        assert n == 2 && 2 < |c|;
        assert !IsDigit(c[2]);
      }
    }
  }

  /** A cleaned number starting `+1+` with ten digits after the `+1` is spaced. */
  lemma PlusOnePlusSpaced(phone: string)
    requires phone != ""
    requires StartsWith(Cleaned(phone), "+1+") && |KeepDigits(Cleaned(phone)[2..])| == 10
    ensures FormatPhoneInternational(phone) == Phone(Spaced(KeepDigits(Cleaned(phone)[2..])))
  {
    var c := Cleaned(phone);
    assert c[1..][0] == '1' && c[1..][1] == '+';
    assert LeadingDigits(c[1..][1..]) == 0;
    assert CountryCodeLength(c) == Some(2);
    assert c[..2] == "+1";
  }

  /**
   * The spaced `+1 ddd ddd dddd` form comes out exactly when the cleaned
   * number starts `+1+` and ten digits follow the `+1`: a `+1` code is only
   * matched when no digit comes straight after it.
   */
  lemma PhoneSpacedIff(phone: string)
    requires phone != ""
    ensures (FormatPhoneInternational(phone).Phone? && StartsWith(FormatPhoneInternational(phone).text, "+1 "))
        <==> (StartsWith(Cleaned(phone), "+1+") && |KeepDigits(Cleaned(phone)[2..])| == 10)
  {
    if FormatPhoneInternational(phone).Phone? && StartsWith(FormatPhoneInternational(phone).text, "+1 ") {
      SpacedNeedsPlusOnePlus(phone);
    }
    if StartsWith(Cleaned(phone), "+1+") && |KeepDigits(Cleaned(phone)[2..])| == 10 {
      PlusOnePlusSpaced(phone);
    }
  }

  /**
   * Every other number whose cleaned form starts with `+` and a digit comes
   * back as that cleaned form, which holds only digits and `+`.
   */
  lemma PhonePlusOtherwiseCleaned(phone: string)
    requires phone != "" && StartsWith(Cleaned(phone), "+")
    requires |Cleaned(phone)| > 1 && IsDigit(Cleaned(phone)[1])
    requires !(StartsWith(Cleaned(phone), "+1+") && |KeepDigits(Cleaned(phone)[2..])| == 10)
    ensures FormatPhoneInternational(phone) == Phone(Cleaned(phone))
    ensures forall i :: 0 <= i < |Cleaned(phone)| ==> IsDigit(Cleaned(phone)[i]) || Cleaned(phone)[i] == '+'
  {
    PhoneSpacedIff(phone);
    CleanedChars(phone);
  }

  /** Ten digits with nothing else come back as `+1` and the digits, without the spaces the format comment promises. */
  lemma TenDigitsUnspaced(phone: string)
    requires |phone| == 10 && forall i :: 0 <= i < 10 ==> IsDigit(phone[i])
    ensures FormatPhoneInternational(phone) == Phone("+1" + phone)
  {
    var c := "+1" + phone;
    assert StartsWith(c, "+");
    assert c[1..][0] == '1' && c[1..][1] == phone[0] && c[1..][2] == phone[1] && c[1..][3] == phone[2];
    assert LeadingDigits(c[1..]) >= 4;
    assert c[..4] != "+1";
  }

  /** A concrete number the spaced branch never reaches. */
  lemma UsNumberUnspaced(phone: string)
    requires phone == "5551234567"
    ensures FormatPhoneInternational(phone) == Phone("+1" + phone)
  {
    assert IsDigit(phone[0]) && IsDigit(phone[1]) && IsDigit(phone[2]) && IsDigit(phone[3]) && IsDigit(phone[4]);
    assert IsDigit(phone[5]) && IsDigit(phone[6]) && IsDigit(phone[7]) && IsDigit(phone[8]) && IsDigit(phone[9]);
    TenDigitsUnspaced(phone);
  }

  /**
   * The evidently intended rule: a `+1` number with ten digits after the
   * code is spaced, whatever follows the `1`, and a `+` with no digit after
   * it does not throw.
   */
  function FormatPhoneIntended(phone: string): (r: string) {
    if phone == "" then phone
    else
      var cleaned := Cleaned(phone);
      if StartsWith(cleaned, "+") then
        if StartsWith(cleaned, "+1") && |KeepDigits(cleaned[2..])| == 10 then Spaced(KeepDigits(cleaned[2..]))
        else cleaned
      else phone
  }

  /** Under the intended rule ten digits come out as `+1 ddd ddd dddd`. */
  lemma TenDigitsSpacedIntended(phone: string)
    requires |phone| == 10 && forall i :: 0 <= i < 10 ==> IsDigit(phone[i])
    ensures FormatPhoneIntended(phone) == "+1 " + phone[..3] + " " + phone[3..6] + " " + phone[6..]
  {
    var c := "+1" + phone;
    assert Cleaned(phone) == c;
    assert c[2..] == phone;
  }
}
