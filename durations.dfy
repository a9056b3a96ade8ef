/**
 * java.time.Duration.ofSeconds(n).toString(): the ISO 8601 duration that
 * Java prints for a whole number of seconds (designator form "PTnHnMnS",
 * section 4.4.3.2 of ISO 8601:2004), and a reader for that form that serves
 * as its reference meaning.
 */
module Durations {
  import opened Wrappers
  import opened Strings

  const SecondsPerHour: int := 3600
  const SecondsPerMinute: int := 60

  /** Java's `/` on long: the quotient truncated toward zero. */
  function JavaDiv(a: int, b: int): int
    requires b > 0
  {
    if a >= 0 then a / b else -((-a) / b)
  }

  /** Java's `%` on long: the remainder takes the sign of the dividend. */
  function JavaRem(a: int, b: int): int
    requires b > 0
  {
    a - b * JavaDiv(a, b)
  }

  /** The hours, minutes and seconds fields Duration.toString prints. */
  datatype Fields = Fields(hours: int, minutes: int, seconds: int)

  lemma SplitNonNegative(t: nat)
    ensures var h, r := t / 3600, t % 3600;
            h * 3600 + (r / 60) * 60 + t % 60 == t && r / 60 < 60 && t % 60 == r % 60
  {
    var h, r := t / 3600, t % 3600;
    assert t == 3600 * h + r && 0 <= r < 3600;
    var m, sec := r / 60, r % 60;
    assert r == 60 * m + sec && 0 <= sec < 60;
    assert m < 60;
    RemainderOf60(t, 60 * h + m, sec);
  }

  /** A number written as 60 * q + m with 0 <= m < 60 leaves remainder m. */
  lemma RemainderOf60(t: int, q: int, m: int)
    requires t == 60 * q + m && 0 <= m < 60
    ensures t % 60 == m
  {
  }

  /**
   * The fields of a duration of `total` seconds: they add up to `total`, the
   * minutes and seconds stay below 60 in magnitude, and all carry the sign of `total`.
   */
  function Split(total: int): (f: Fields)
    ensures f.hours * 3600 + f.minutes * 60 + f.seconds == total
    ensures -60 < f.minutes < 60 && -60 < f.seconds < 60
    ensures total >= 0 ==> f.hours >= 0 && f.minutes >= 0 && f.seconds >= 0
    ensures total <= 0 ==> f.hours <= 0 && f.minutes <= 0 && f.seconds <= 0
  {
    var f := Fields(JavaDiv(total, 3600), JavaDiv(JavaRem(total, 3600), 60), JavaRem(total, 60));
    if total >= 0 then
      SplitNonNegative(total); f
    else
      SplitNonNegative(-total); f
  }

  /** One printed field: the number and its designator. */
  function Field(value: int, designator: char): string {
    IntToDecimal(value) + [designator]
  }

  /**
   * The fields Duration.toString prints, in order, as (count, designator):
   * hours and minutes only when they are non-zero, seconds unless they are
   * zero and something was already printed.
   */
  function PrintedFields(f: Fields): seq<(int, char)> {
    (if f.hours != 0 then [(f.hours, 'H')] else [])
    + (if f.minutes != 0 then [(f.minutes, 'M')] else [])
    + (if f.seconds == 0 && (f.hours != 0 || f.minutes != 0) then [] else [(f.seconds, 'S')])
  }

  /** The fields written one after another. */
  function Join(fields: seq<(int, char)>): string {
    if fields == [] then "" else Field(fields[0].0, fields[0].1) + Join(fields[1..])
  }

  /** The text after "PT". */
  function FieldsText(f: Fields): string {
    Join(PrintedFields(f))
  }

  /** Duration.ofSeconds(total).toString(). */
  function DurationString(total: int): string {
    if total == 0 then "PT0S" else "PT" + FieldsText(Split(total))
  }

  // ---- The reader: what a "PT" duration denotes ----
  //
  // The reader walks `s` by position, so that a field is read where it
  // stands in the whole text.

  /** The length of the run of decimal digits that starts at position `i`. */
  function DigitRun(s: string, i: nat): (n: nat)
    requires i <= |s|
    ensures i + n <= |s|
    decreases |s| - i
  {
    if i < |s| && IsDigit(s[i]) then 1 + DigitRun(s, i + 1) else 0
  }

  /** The number the `n` characters from position `i` denote, read as decimal digits. */
  function RunValue(s: string, i: nat, n: nat): nat
    requires i + n <= |s|
  {
    if n == 0 then 0
    else RunValue(s, i, n - 1) * 10 + (if IsDigit(s[i + n - 1]) then DigitValue(s[i + n - 1]) else 0)
  }

  /** How many seconds one unit of a time designator stands for. */
  function DesignatorSeconds(c: char): Option<int> {
    if c == 'H' then Some(SecondsPerHour)
    else if c == 'M' then Some(SecondsPerMinute)
    else if c == 'S' then Some(1)
    else None
  }

  /** `count` units of the given designator, in seconds. */
  function Scaled(count: int, designator: char): int
    requires DesignatorSeconds(designator).Some?
  {
    if designator == 'H' then count * 3600
    else if designator == 'M' then count * 60
    else count
  }

  /**
   * Reads an unsigned field, digits and a designator, at position `i`: the
   * seconds it stands for and the position after it.
   */
  function ReadUnsigned(s: string, i: nat): (r: Option<(int, nat)>)
    requires i <= |s|
    ensures r.Some? ==> i < r.value.1 <= |s|
  {
    var n := DigitRun(s, i);
    if n == 0 || i + n == |s| then None
    else if DesignatorSeconds(s[i + n]).None? then None
    else Some((Scaled(RunValue(s, i, n), s[i + n]), i + n + 1))
  }

  /** Reads one field, which may carry a minus sign, at position `i`. */
  function ReadField(s: string, i: nat): (r: Option<(int, nat)>)
    requires i <= |s|
    ensures r.Some? ==> i < r.value.1 <= |s|
  {
    var negative := i < |s| && s[i] == '-';
    match ReadUnsigned(s, if negative then i + 1 else i)
    case None => None
    case Some((seconds, next)) => Some((if negative then -seconds else seconds, next))
  }

  /** The seconds denoted by the fields from position `i` to the end. */
  function TimeFieldsValue(s: string, i: nat): Option<int>
    requires i <= |s|
    decreases |s| - i
  {
    if i == |s| then Some(0)
    else match ReadField(s, i)
      case None => None
      case Some((seconds, next)) =>
        match TimeFieldsValue(s, next)
        case None => None
        case Some(more) => Some(seconds + more)
  }

  /** The number of seconds an ISO 8601 time-only duration "PT..." denotes. */
  function IsoSeconds(s: string): Option<int> {
    if |s| > 2 && s[0] == 'P' && s[1] == 'T' then TimeFieldsValue(s, 2) else None
  }

  // ---- Reading back what was printed ----
  //
  // Each lemma reads `s` at the position where `text` starts, with `s`
  // written as `prefix + text + rest`.

  lemma {:induction false} DigitRunOfDigits(s: string, prefix: string, digits: string, rest: string)
    requires AllDigits(digits) && s == prefix + digits + rest
    requires |rest| > 0 && !IsDigit(rest[0])
    ensures DigitRun(s, |prefix|) == |digits|
    decreases |digits|
  {
    if |digits| > 0 {
      var prefix', digits' := prefix + [digits[0]], digits[1..];
      assert s == prefix' + digits' + rest;
      DigitRunOfDigits(s, prefix', digits', rest);
    } else {
      assert s[|prefix|] == rest[0];
    }
  }

  lemma {:induction false} RunValueOfDigits(s: string, prefix: string, digits: string, rest: string, n: nat)
    requires s == prefix + digits + rest && n <= |digits|
    ensures RunValue(s, |prefix|, n) == RunValue(digits, 0, n)
  {
    if n > 0 {
      RunValueOfDigits(s, prefix, digits, rest, n - 1);
      assert s[|prefix| + n - 1] == digits[n - 1];
    }
  }

  lemma {:induction false} RunValueIsDigitsValue(digits: string, n: nat)
    requires AllDigits(digits) && n <= |digits|
    ensures RunValue(digits, 0, n) == DigitsValue(digits[..n])
  {
    if n > 0 {
      RunValueIsDigitsValue(digits, n - 1);
      assert digits[..n][..n - 1] == digits[..n - 1];
    }
  }

  /** The printed digits of `m`, read in place, denote `m`. */
  lemma {:induction false} DecimalRunValue(m: nat)
    ensures AllDigits(NatToDecimal(m)) && RunValue(NatToDecimal(m), 0, |NatToDecimal(m)|) == m
  {
    var digits := NatToDecimal(m);
    DigitsValueOfDecimal(m);
    RunValueIsDigitsValue(digits, |digits|);
    assert digits[..|digits|] == digits;
  }

  /** The digits of `m` followed by a designator read back as `m` in that unit. */
  lemma {:induction false} ReadUnsignedDecimal(s: string, prefix: string, m: nat, designator: char, rest: string)
    requires DesignatorSeconds(designator).Some?
    requires s == prefix + (NatToDecimal(m) + [designator]) + rest
    ensures ReadUnsigned(s, |prefix|) == Some((Scaled(m, designator), |prefix| + |NatToDecimal(m)| + 1))
  {
    var digits := NatToDecimal(m);
    var after := [designator] + rest;
    assert s == prefix + digits + after;
    assert s[|prefix| + |digits|] == designator;
    DecimalRunValue(m);
    DigitRunOfDigits(s, prefix, digits, after);
    RunValueOfDigits(s, prefix, digits, after, |digits|);
  }

  lemma {:induction false} AppendAssociative(a: string, b: string, c: string)
    ensures a + (b + c) == (a + b) + c
  {
  }

  /** A negative field is a minus sign, the digits of its magnitude and the designator. */
  lemma {:induction false} NegativeField(value: int, designator: char)
    requires value < 0
    ensures Field(value, designator) == "-" + (NatToDecimal(-value) + [designator])
  {
    AppendAssociative("-", NatToDecimal(-value), [designator]);
  }

  lemma {:induction false} ReadNegativeField(s: string, prefix: string, value: int, designator: char, rest: string)
    requires DesignatorSeconds(designator).Some? && value < 0
    requires s == prefix + ("-" + (NatToDecimal(-value) + [designator])) + rest
    ensures ReadField(s, |prefix|) == Some((Scaled(value, designator), |prefix| + |NatToDecimal(-value)| + 2))
  {
    AppendAssociative(prefix, "-", NatToDecimal(-value) + [designator]);
    assert s[|prefix|] == '-';
    ReadUnsignedDecimal(s, prefix + "-", -value, designator, rest);
  }

  lemma {:induction false} ReadNonNegativeField(s: string, prefix: string, value: nat, designator: char, rest: string)
    requires DesignatorSeconds(designator).Some?
    requires s == prefix + (NatToDecimal(value) + [designator]) + rest
    ensures ReadField(s, |prefix|) == Some((Scaled(value, designator), |prefix| + |NatToDecimal(value)| + 1))
  {
    assert s[|prefix|] == NatToDecimal(value)[0];
    ReadUnsignedDecimal(s, prefix, value, designator, rest);
  }

  /** A printed field reads back as its value times its designator's unit. */
  lemma {:induction false} ReadPrintedField(s: string, prefix: string, i: nat, j: nat, value: int, designator: char,
                                           rest: string)
    requires DesignatorSeconds(designator).Some?
    requires s == prefix + Field(value, designator) + rest && i == |prefix| && j == i + |Field(value, designator)|
    ensures i < j <= |s|
    ensures ReadField(s, i) == Some((Scaled(value, designator), j))
  {
    if value < 0 {
      NegativeField(value, designator);
      ReadNegativeField(s, prefix, value, designator, rest);
    } else {
      ReadNonNegativeField(s, prefix, value, designator, rest);
    }
  }

  lemma {:induction false} TimeFieldsStep(s: string, i: nat, seconds: int, next: nat, more: int)
    requires i < |s| && next <= |s|
    requires ReadField(s, i) == Some((seconds, next))
    requires TimeFieldsValue(s, next) == Some(more)
    ensures TimeFieldsValue(s, i) == Some(seconds + more)
  {
  }

  /** Every field of the list has a time designator. */
  predicate Designated(fields: seq<(int, char)>) {
    forall i :: 0 <= i < |fields| ==> DesignatorSeconds(fields[i].1).Some?
  }

  /** The seconds a list of fields stands for. */
  function FieldsSeconds(fields: seq<(int, char)>): int
    requires Designated(fields)
  {
    if fields == [] then 0 else Scaled(fields[0].0, fields[0].1) + FieldsSeconds(fields[1..])
  }

  /** The first field of a list and the seconds it adds to the others. */
  lemma {:induction false} FirstField(fields: seq<(int, char)>)
    requires fields != [] && Designated(fields)
    ensures DesignatorSeconds(fields[0].1).Some? && Designated(fields[1..])
    ensures FieldsSeconds(fields) == Scaled(fields[0].0, fields[0].1) + FieldsSeconds(fields[1..])
  {
  }

  /** `t` stands in `s` from position `i` on. */
  predicate Occurs(s: string, i: nat, t: string) {
    i + |t| <= |s| && forall k :: 0 <= k < |t| ==> s[i + k] == t[k]
  }

  /** The fields stand in `s` one after another, from position `i` to the end of `s`. */
  predicate Laid(s: string, i: nat, fields: seq<(int, char)>)
    decreases |fields|
  {
    if fields == [] then i == |s|
    else
      var field := Field(fields[0].0, fields[0].1);
      Occurs(s, i, field) && Laid(s, i + |field|, fields[1..])
  }

  /** Text written between `prefix` and `rest` stands right after `prefix`. */
  lemma {:induction false} OccursAfter(s: string, prefix: string, t: string, rest: string)
    requires s == (prefix + t) + rest
    ensures Occurs(s, |prefix|, t)
  {
    forall k | 0 <= k < |t|
      ensures s[|prefix| + k] == t[k]
    {
      assert (prefix + t)[|prefix| + k] == t[k];
    }
  }

  /** Joined fields after `prefix` are laid out from the end of `prefix`. */
  lemma {:induction false} LaidOut(s: string, prefix: string, fields: seq<(int, char)>)
    requires s == prefix + Join(fields)
    ensures Laid(s, |prefix|, fields)
    decreases |fields|
  {
    if fields != [] {
      var field, rest := Field(fields[0].0, fields[0].1), Join(fields[1..]);
      AppendAssociative(prefix, field, rest);
      OccursAfter(s, prefix, field, rest);
      LaidOut(s, prefix + field, fields[1..]);
    }
  }

  /** A printed field standing at position `i` reads back as its value times its designator's unit. */
  lemma {:induction false} FieldRead(s: string, i: nat, j: nat, value: int, designator: char)
    requires DesignatorSeconds(designator).Some?
    requires Occurs(s, i, Field(value, designator)) && j == i + |Field(value, designator)|
    ensures i < j <= |s|
    ensures ReadField(s, i) == Some((Scaled(value, designator), j))
  {
    var field := Field(value, designator);
    assert s == s[..i] + field + s[j..] by {
      forall k | 0 <= k < |field|
        ensures s[i + k] == field[k]
      {
      }
    }
    ReadPrintedField(s, s[..i], i, j, value, designator, s[j..]);
  }

  /** Fields laid out from position `i` to the end of `s` read back as the seconds they stand for. */
  lemma {:induction false} JoinValue(s: string, i: nat, fields: seq<(int, char)>)
    requires i <= |s| && Designated(fields) && Laid(s, i, fields)
    ensures TimeFieldsValue(s, i) == Some(FieldsSeconds(fields))
    decreases |fields|
  {
    if fields != [] {
      var j := i + |Field(fields[0].0, fields[0].1)|;
      FirstField(fields);
      FieldRead(s, i, j, fields[0].0, fields[0].1);
      JoinValue(s, j, fields[1..]);
      TimeFieldsStep(s, i, Scaled(fields[0].0, fields[0].1), j, FieldsSeconds(fields[1..]));
    }
  }

  lemma {:induction false} FieldsSecondsAppend(a: seq<(int, char)>, b: seq<(int, char)>)
    requires Designated(a) && Designated(b)
    ensures Designated(a + b) && FieldsSeconds(a + b) == FieldsSeconds(a) + FieldsSeconds(b)
    decreases |a|
  {
    if a == [] {
      assert a + b == b;
    } else {
      FieldsSecondsAppend(a[1..], b);
      assert (a + b)[1..] == a[1..] + b;
    }
  }

  /** The printed fields stand for the hours, minutes and seconds together. */
  lemma {:induction false} PrintedFieldsSeconds(f: Fields)
    ensures Designated(PrintedFields(f))
    ensures FieldsSeconds(PrintedFields(f)) == f.hours * 3600 + f.minutes * 60 + f.seconds
  {
    var hours := if f.hours != 0 then [(f.hours, 'H')] else [];
    var minutes := if f.minutes != 0 then [(f.minutes, 'M')] else [];
    var seconds := if f.seconds == 0 && (f.hours != 0 || f.minutes != 0) then [] else [(f.seconds, 'S')];
    assert FieldsSeconds(hours) == f.hours * 3600;
    assert FieldsSeconds(minutes) == f.minutes * 60;
    assert FieldsSeconds(seconds) == f.seconds;
    FieldsSecondsAppend(hours, minutes);
    FieldsSecondsAppend(hours + minutes, seconds);
  }

  /** Something is always printed after "PT". */
  lemma {:induction false} FieldsTextNonEmpty(f: Fields)
    ensures |FieldsText(f)| > 0
  {
    var fields := PrintedFields(f);
    if f.hours != 0 {
      assert fields[0] == (f.hours, 'H');
    } else if f.minutes != 0 {
      assert fields[0] == (f.minutes, 'M');
    } else {
      assert fields[0] == (f.seconds, 'S');
    }
    assert |Field(fields[0].0, fields[0].1)| > 0;
  }

  /** "PT" followed by fields reads as what the fields denote. */
  lemma {:induction false} PTValue(d: string, t: string, seconds: int)
    requires d == "PT" + t && |t| > 0
    requires TimeFieldsValue(d, 2) == Some(seconds)
    ensures IsoSeconds(d) == Some(seconds)
  {
    assert d[0] == 'P' && d[1] == 'T';
  }

  /** "PT" and the printed fields, read back, give the fields' seconds. */
  lemma {:induction false} PrintedFieldsDenote(d: string, f: Fields)
    requires d == "PT" + FieldsText(f)
    ensures IsoSeconds(d) == Some(f.hours * 3600 + f.minutes * 60 + f.seconds)
  {
    PrintedFieldsSeconds(f);
    FieldsTextNonEmpty(f);
    LaidOut(d, "PT", PrintedFields(f));
    JoinValue(d, 2, PrintedFields(f));
    PTValue(d, FieldsText(f), f.hours * 3600 + f.minutes * 60 + f.seconds);
  }

  /** Zero seconds print as "PT0S", which reads back as zero. */
  lemma {:induction false} ZeroDurationDenotes()
    ensures IsoSeconds(DurationString(0)) == Some(0)
  {
    assert FieldsText(Fields(0, 0, 0)) == "0S" by {
      assert NatToDecimal(0) == "0";
    }
    PrintedFieldsDenote("PT0S", Fields(0, 0, 0));
  }

  /** What Duration.toString prints denotes exactly the given number of seconds. */
  lemma {:induction false} DurationStringDenotes(total: int)
    ensures IsoSeconds(DurationString(total)) == Some(total)
  {
    if total == 0 {
      ZeroDurationDenotes();
    } else {
      PrintedFieldsDenote(DurationString(total), Split(total));
    }
  }

  /** Every printed duration starts with "PT". */
  lemma DurationStringStartsWithPT(total: int)
    ensures StartsWith(DurationString(total), "PT")
  {
  }

  /** 150 seconds print as two minutes thirty. */
  lemma ExampleMinutesAndSeconds()
    ensures DurationString(150) == "PT2M30S"
  {
    assert Split(150) == Fields(0, 2, 30);
    assert NatToDecimal(2) == "2";
    assert NatToDecimal(30) == "30" by { assert NatToDecimal(3) == "3"; }
  }

  /** A zero seconds field is dropped once hours or minutes were printed. */
  lemma ExampleHoursAndMinutes()
    ensures DurationString(5400) == "PT1H30M"
  {
    assert Split(5400) == Fields(1, 30, 0);
    assert NatToDecimal(1) == "1";
    assert NatToDecimal(30) == "30" by { assert NatToDecimal(3) == "3"; }
  }

  /** A negative count prints every field with its own minus sign. */
  lemma ExampleNegative()
    ensures DurationString(-150) == "PT-2M-30S"
  {
    assert Split(-150) == Fields(0, -2, -30);
    assert NatToDecimal(2) == "2";
    assert NatToDecimal(30) == "30" by { assert NatToDecimal(3) == "3"; }
  }
}
