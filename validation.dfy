/**
 * The answer checks of dementia_agent/util.py and the two `time.strptime`
 * formats the retriever validates with. Each interactive prompt loop is modelled
 * over the finite sequence of answers the user types: the loop returns what the
 * first acceptable answer yields, together with how many answers it read; when
 * the answers run out first, `input()` would raise `EOFError`, modelled as `None`.
 */
module Validation {
  import opened Wrappers
  import opened Strings

  /** The lower-case weekday names get_day accepts. */
  predicate IsLowerWeekday(s: string) {
    || s == "monday" || s == "tuesday" || s == "wednesday" || s == "thursday"
    || s == "friday" || s == "saturday" || s == "sunday"
  }

  /** The canonical spellings get_day returns. */
  predicate IsDayName(s: string) {
    || s == "Monday" || s == "Tuesday" || s == "Wednesday" || s == "Thursday"
    || s == "Friday" || s == "Saturday" || s == "Sunday"
  }

  /** `s.lower() in [...]`, and also what `time.strptime(s, "%A")` accepts: a full English weekday name in any case. */
  predicate IsWeekdayName(s: string) {
    IsLowerWeekday(Lower(s))
  }

  predicate IsDigit(c: char) {
    '0' <= c <= '9'
  }

  function DigitValue(c: char): nat
    requires IsDigit(c)
  {
    c as int - '0' as int
  }

  predicate AllDigits(f: string) {
    forall i :: 0 <= i < |f| ==> IsDigit(f[i])
  }

  /** The number a field of one or two decimal digits denotes. */
  function FieldValue(f: string): nat
    requires 1 <= |f| <= 2 && AllDigits(f)
  {
    if |f| == 1 then DigitValue(f[0]) else 10 * DigitValue(f[0]) + DigitValue(f[1])
  }

  /** The `%H` pattern of `time.strptime`: `2[0-3]|[0-1]\d|\d`. */
  predicate IsHourField(f: string) {
    || (|f| == 1 && IsDigit(f[0]))
    || (|f| == 2 && IsDigit(f[1]) && ('0' <= f[0] <= '1' || (f[0] == '2' && '0' <= f[1] <= '3')))
  }

  /** The `%M` pattern of `time.strptime`: `[0-5]\d|\d`. */
  predicate IsMinuteField(f: string) {
    || (|f| == 1 && IsDigit(f[0]))
    || (|f| == 2 && '0' <= f[0] <= '5' && IsDigit(f[1]))
  }

  /** `time.strptime(s, "%H:%M")` succeeds: the whole of `s` is an hour field, a colon and a minute field. */
  predicate IsHourMinute(s: string) {
    || (|s| >= 2 && s[1] == ':' && IsHourField(s[..1]) && IsMinuteField(s[2..]))
    || (|s| >= 3 && s[2] == ':' && IsHourField(s[..2]) && IsMinuteField(s[3..]))
  }

  /** A field matches `%H` exactly when it is one or two digits denoting an hour 0-23. */
  lemma HourFieldMeaning(f: string)
    ensures IsHourField(f) <==> 1 <= |f| <= 2 && AllDigits(f) && FieldValue(f) < 24
  {
    if 1 <= |f| <= 2 && AllDigits(f) && |f| == 2 {
      assert IsDigit(f[0]) && IsDigit(f[1]);
    }
  }

  /** A field matches `%M` exactly when it is one or two digits denoting a minute 0-59. */
  lemma MinuteFieldMeaning(f: string)
    ensures IsMinuteField(f) <==> 1 <= |f| <= 2 && AllDigits(f) && FieldValue(f) < 60
  {
    if 1 <= |f| <= 2 && AllDigits(f) && |f| == 2 {
      assert IsDigit(f[0]) && IsDigit(f[1]);
    }
  }

  /**
   * The accepted strings are exactly those that split at a colon into an hour
   * field and a minute field, which is the language of the pattern `%H:%M`.
   */
  lemma HourMinuteIsSplit(s: string)
    ensures IsHourMinute(s) <==> exists i :: 0 <= i < |s| && s[i] == ':' && IsHourField(s[..i]) && IsMinuteField(s[i + 1..])
  {
    if exists i :: 0 <= i < |s| && s[i] == ':' && IsHourField(s[..i]) && IsMinuteField(s[i + 1..]) {
      var i :| 0 <= i < |s| && s[i] == ':' && IsHourField(s[..i]) && IsMinuteField(s[i + 1..]);
      assert |s[..i]| == i;
      assert i == 1 || i == 2;
    }
    if IsHourMinute(s) {
      if |s| >= 2 && s[1] == ':' && IsHourField(s[..1]) && IsMinuteField(s[2..]) {
        assert 0 <= 1 < |s| && s[1] == ':' && IsHourField(s[..1]) && IsMinuteField(s[1 + 1..]);
      } else {
        assert 0 <= 2 < |s| && s[2] == ':' && IsHourField(s[..2]) && IsMinuteField(s[2 + 1..]);
      }
    }
  }

  function DigitChar(d: nat): (c: char)
    requires d < 10
    ensures IsDigit(c) && DigitValue(c) == d
  {
    ('0' as int + d) as char
  }

  /** The zero-padded two-digit text of a number below 100. */
  function TwoDigits(n: nat): (f: string)
    requires n < 100
    ensures |f| == 2 && AllDigits(f) && FieldValue(f) == n
  {
    [DigitChar(n / 10), DigitChar(n % 10)]
  }

  /** Every clock time written `HH:MM` with hour 0-23 and minute 0-59 is accepted. */
  lemma ClockTimesAccepted(hour: nat, minute: nat)
    requires hour < 24 && minute < 60
    ensures IsHourMinute(TwoDigits(hour) + ":" + TwoDigits(minute))
  {
    var s := TwoDigits(hour) + ":" + TwoDigits(minute);
    HourFieldMeaning(TwoDigits(hour));
    MinuteFieldMeaning(TwoDigits(minute));
    assert s[..2] == TwoDigits(hour);
    assert s[3..] == TwoDigits(minute);
  }

  /** Out-of-range clock times and malformed strings are rejected; single-digit fields are accepted. */
  lemma HourMinuteExamples()
    ensures !IsHourMinute("25:61") && !IsHourMinute("24:00") && !IsHourMinute("12:60")
    ensures !IsHourMinute("") && !IsHourMinute("0855") && !IsHourMinute(" 08:55")
    ensures IsHourMinute("08:55") && IsHourMinute("23:59") && IsHourMinute("9:5")
  {
    assert "25:61"[..2] == "25";
    assert "24:00"[..2] == "24";
    assert "12:60"[3..] == "60";
    assert "08:55"[..2] == "08" && "08:55"[3..] == "55";
    assert "23:59"[..2] == "23" && "23:59"[3..] == "59";
    assert "9:5"[..1] == "9" && "9:5"[2..] == "5";
  }

  /** One answer to get_yes_or_no: `yes`/`y` give true, `no`/`n` give false, in any case and surrounded by any whitespace. */
  function AcceptYesOrNo(answer: string): (r: Option<bool>)
    ensures r == Some(true) <==> Lower(Strip(answer)) == "yes" || Lower(Strip(answer)) == "y"
    ensures r == Some(false) <==> Lower(Strip(answer)) == "no" || Lower(Strip(answer)) == "n"
  {
    var a := Lower(Strip(answer));
    if a == "yes" || a == "y" then Some(true)
    else if a == "no" || a == "n" then Some(false)
    else None
  }

  /** One answer to get_time: the stripped answer, once it parses as `%H:%M`. */
  function AcceptTime(answer: string): (r: Option<string>)
    ensures r.Some? <==> IsHourMinute(Strip(answer))
    ensures r.Some? ==> r.value == Strip(answer)
  {
    var t := Strip(answer);
    if IsHourMinute(t) then Some(t) else None
  }

  /** One answer to get_day: a weekday in any case, returned capitalized. */
  function AcceptDay(answer: string): (r: Option<string>)
    ensures r.Some? <==> IsWeekdayName(Strip(answer))
    ensures r.Some? ==> r.value == Capitalize(Strip(answer))
  {
    var d := Strip(answer);
    if IsWeekdayName(d) then Some(Capitalize(d)) else None
  }

  /** An accepted day is one of the seven canonical names, and it is the answer up to case and surrounding whitespace. */
  lemma AcceptedDayIsCanonical(answer: string)
    requires AcceptDay(answer).Some?
    ensures IsDayName(AcceptDay(answer).value)
    ensures Lower(AcceptDay(answer).value) == Lower(Strip(answer))
  {
    CanonicalDay(Strip(answer));
  }

  /** The canonical spelling of each lower-case weekday name is its capitalization. */
  lemma CapitalizedWeekday(w: string)
    requires IsLowerWeekday(w)
    ensures IsDayName(Capitalize(w))
  {
    if w == "monday" {
      CapitalizedMonday();
    } else if w == "tuesday" {
      CapitalizedTuesday();
    } else if w == "wednesday" {
      CapitalizedWednesday();
    } else if w == "thursday" {
      CapitalizedThursday();
    } else if w == "friday" {
      CapitalizedFriday();
    } else if w == "saturday" {
      CapitalizedSaturday();
    } else {
      CapitalizedSunday();
    }
  }

  lemma CapitalizedMonday()
    ensures Capitalize("monday") == "Monday"
  {
    CapitalizeLowercase("monday");
  }

  lemma CapitalizedTuesday()
    ensures Capitalize("tuesday") == "Tuesday"
  {
    CapitalizeLowercase("tuesday");
  }

  lemma CapitalizedWednesday()
    ensures Capitalize("wednesday") == "Wednesday"
  {
    CapitalizeLowercase("wednesday");
  }

  lemma CapitalizedThursday()
    ensures Capitalize("thursday") == "Thursday"
  {
    CapitalizeLowercase("thursday");
  }

  lemma CapitalizedFriday()
    ensures Capitalize("friday") == "Friday"
  {
    CapitalizeLowercase("friday");
  }

  lemma CapitalizedSaturday()
    ensures Capitalize("saturday") == "Saturday"
  {
    CapitalizeLowercase("saturday");
  }

  lemma CapitalizedSunday()
    ensures Capitalize("sunday") == "Sunday"
  {
    CapitalizeLowercase("sunday");
  }

  /** Capitalizing any spelling of a weekday gives its canonical name. */
  lemma CanonicalDay(d: string)
    requires IsWeekdayName(d)
    ensures IsDayName(Capitalize(d)) && Lower(Capitalize(d)) == Lower(d)
  {
    var w := Lower(d);
    LowerIdempotent(d);
    CapitalizeIgnoresCase(d, w);
    LowerOfCapitalize(d);
    CapitalizedWeekday(w);
  }

  /**
   * The retry loop of the three prompts: reads answers until `accept` takes one.
   * The result is what the first accepted answer yields, and `asked` counts the
   * answers read; every earlier answer was rejected.
   */
  method FirstAccepted<T>(accept: string -> Option<T>, answers: seq<string>) returns (r: Option<T>, asked: nat)
    ensures asked <= |answers|
    ensures r.None? ==> asked == |answers| && forall j :: 0 <= j < |answers| ==> accept(answers[j]).None?
    ensures r.Some? ==> 0 < asked && r == accept(answers[asked - 1])
    ensures r.Some? ==> forall j :: 0 <= j < asked - 1 ==> accept(answers[j]).None?
  {
    r, asked := None, 0;
    while asked < |answers| && r.None?
      invariant asked <= |answers|
      invariant r.None? ==> forall j :: 0 <= j < asked ==> accept(answers[j]).None?
      invariant r.Some? ==> 0 < asked && r == accept(answers[asked - 1])
      invariant r.Some? ==> forall j :: 0 <= j < asked - 1 ==> accept(answers[j]).None?
    {
      r := accept(answers[asked]);
      asked := asked + 1;
    }
  }

  /** get_yes_or_no over the answers typed: the verdict of the first yes/no answer. */
  method GetYesOrNo(answers: seq<string>) returns (r: Option<bool>, asked: nat)
    ensures asked <= |answers|
    ensures r.None? ==> asked == |answers| && forall j :: 0 <= j < |answers| ==> AcceptYesOrNo(answers[j]).None?
    ensures r.Some? ==> 0 < asked && r == AcceptYesOrNo(answers[asked - 1])
    ensures r.Some? ==> forall j :: 0 <= j < asked - 1 ==> AcceptYesOrNo(answers[j]).None?
  {
    r, asked := FirstAccepted(AcceptYesOrNo, answers);
  }

  /** get_time over the answers typed: the first answer that parses as `%H:%M`, stripped. */
  method GetTime(answers: seq<string>) returns (r: Option<string>, asked: nat)
    ensures asked <= |answers|
    ensures r.None? ==> asked == |answers| && forall j :: 0 <= j < |answers| ==> AcceptTime(answers[j]).None?
    ensures r.Some? ==> 0 < asked && r == AcceptTime(answers[asked - 1])
    ensures r.Some? ==> forall j :: 0 <= j < asked - 1 ==> AcceptTime(answers[j]).None?
  {
    r, asked := FirstAccepted(AcceptTime, answers);
  }

  /** get_day over the answers typed: the first weekday answer, capitalized. */
  method GetDay(answers: seq<string>) returns (r: Option<string>, asked: nat)
    ensures asked <= |answers|
    ensures r.None? ==> asked == |answers| && forall j :: 0 <= j < |answers| ==> AcceptDay(answers[j]).None?
    ensures r.Some? ==> 0 < asked && r == AcceptDay(answers[asked - 1])
    ensures r.Some? ==> forall j :: 0 <= j < asked - 1 ==> AcceptDay(answers[j]).None?
  {
    r, asked := FirstAccepted(AcceptDay, answers);
  }
}
