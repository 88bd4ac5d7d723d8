/**
 * The text converters of the launcher's configuration file
 * (papermc-launcher/config.go): weekday names, "HH:MM" day times and
 * player kinds, together with the time units the schedule is written in.
 *
 * The JSON text layer itself (quoting, escaping, the generic decode into
 * an interface value) is not modelled: an Unmarshal function receives the
 * already decoded JSON value, and a Marshal function returns the value
 * that `json.Marshal` would then print.
 */
module LauncherConfig {
  import opened Wrappers
  import opened GoText

  /** A decoded JSON value, as `json.Unmarshal` into `interface{}` yields it. */
  datatype JsonValue =
    | JNull
    | JBool(b: bool)
    | JNumber(n: real)
    | JString(s: string)
    | JArray(items: seq<JsonValue>)
    | JObject(members: seq<(string, JsonValue)>)

  // ---------------------------------------------------------------------
  // Time units (time.Duration counts nanoseconds)
  // ---------------------------------------------------------------------

  const Minute: int := 60_000_000_000
  const Hour: int := 60 * Minute
  const Day: int := 24 * Hour
  const Week: int := 7 * Day

  // ---------------------------------------------------------------------
  // Weekday
  // ---------------------------------------------------------------------

  /** `time.Weekday`: Sunday is 0, Saturday is 6. */
  type Weekday = d: int | 0 <= d < 7

  const Sunday: Weekday := 0
  const Monday: Weekday := 1
  const Tuesday: Weekday := 2
  const Wednesday: Weekday := 3
  const Thursday: Weekday := 4
  const Friday: Weekday := 5
  const Saturday: Weekday := 6

  /** The English names of the weekdays, indexed by their number. */
  const WeekdayNames: seq<string> :=
    ["Sunday", "Monday", "Tuesday", "Wednesday", "Thursday", "Friday", "Saturday"]

  /**
   * `Weekday.UnmarshalText`: exactly the seven capitalised English names
   * are accepted, each mapped to its number; anything else is an error.
   */
  function ParseWeekday(text: string): (r: Result<Weekday>)
    ensures r.Ok? <==> text in WeekdayNames
    ensures r.Ok? ==> |WeekdayNames| == 7 && WeekdayNames[r.value] == text
    ensures r.Err? ==> r.error == "invalid weekday"
  {
    if text == "Sunday" then Ok(Sunday)
    else if text == "Monday" then Ok(Monday)
    else if text == "Tuesday" then Ok(Tuesday)
    else if text == "Wednesday" then Ok(Wednesday)
    else if text == "Thursday" then Ok(Thursday)
    else if text == "Friday" then Ok(Friday)
    else if text == "Saturday" then Ok(Saturday)
    else Err("invalid weekday")
  }

  /** Every weekday is recovered from its name. */
  lemma WeekdayNameParses(d: Weekday)
    ensures ParseWeekday(WeekdayNames[d]) == Ok(d)
  {
  }

  // ---------------------------------------------------------------------
  // DayTime
  // ---------------------------------------------------------------------

  /** A time of day in hours and minutes, as written "HH:MM" in the configuration. */
  datatype DayTime = DayTime(hours: int, minutes: int)

  /** `fmt`'s `%02d`: at least two characters, zero-padded after the sign. */
  function Pad2(n: int): string
  {
    if 0 <= n < 10 then "0" + NatToDecimal(n) else IntToDecimal(n)
  }

  /** The text `DayTime.MarshalJSON` formats ("%02d:%02d") before quoting it. */
  function DayTimeText(d: DayTime): (text: string)
    ensures 0 <= d.hours <= 99 && 0 <= d.minutes <= 99 ==>
      && |text| == 5 && text[2] == ':'
      && IsDigits(text[..2]) && DigitsValue(text[..2]) == d.hours
      && IsDigits(text[3..]) && DigitsValue(text[3..]) == d.minutes
  {
    var text := Pad2(d.hours) + ":" + Pad2(d.minutes);
    if 0 <= d.hours <= 99 && 0 <= d.minutes <= 99 then
      Pad2Digits(d.hours);
      Pad2Digits(d.minutes);
      assert text[..2] == Pad2(d.hours) && text[3..] == Pad2(d.minutes);
      text
    else
      text
  }

  /** For 0..99, %02d writes exactly two digits that read back as the number. */
  lemma Pad2Digits(n: int)
    requires 0 <= n <= 99
    ensures |Pad2(n)| == 2 && IsDigits(Pad2(n)) && DigitsValue(Pad2(n)) == n
  {
    NatToDecimalLength(n);
    NatToDecimalValue(n);
    if n < 10 {
      assert Pad2(n)[..1] == "0";
    }
  }

  /** `DayTime.MarshalJSON`: the JSON string holding the "HH:MM" text. */
  function MarshalDayTime(d: DayTime): JsonValue
  {
    JString(DayTimeText(d))
  }

  /** Drops the blanks `fmt.Sscanf` skips before a number; a newline is an error there. */
  function SkipBlanks(s: string): (r: Result<string>)
    ensures r.Ok? ==> |r.value| <= |s| && r.value == s[|s| - |r.value|..]
    ensures r.Ok? && r.value != [] ==> !IsSpace(r.value[0])
  {
    if s == [] then Ok(s)
    else if s[0] == '\n' then Err("unexpected newline")
    else if IsSpace(s[0]) then SkipBlanks(s[1..])
    else Ok(s)
  }

  /**
   * One `%02d` conversion of `fmt.Sscanf`: blanks are skipped, then at
   * most two characters are read, a sign included, of which at least one
   * must be a digit. Returns the number and the unread rest.
   */
  function ScanInt2(s: string): Result<(int, string)>
  {
    match SkipBlanks(s)
    case Err(e) => Err(e)
    case Ok(t) =>
      if t == [] then Err("unexpected EOF")
      else if t[0] == '+' || t[0] == '-' then
        if |t| == 1 then Err("unexpected EOF")
        else if IsDigit(t[1]) then
          Ok((if t[0] == '-' then -(DigitValue(t[1]) as int) else DigitValue(t[1]), t[2..]))
        else Err("expected integer")
      else if !IsDigit(t[0]) then Err("expected integer")
      else if |t| >= 2 && IsDigit(t[1]) then Ok((DigitValue(t[0]) * 10 + DigitValue(t[1]), t[2..]))
      else Ok((DigitValue(t[0]), t[1..]))
  }

  /** `fmt.Sscanf(text, "%02d:%02d", &hours, &minutes)`; input after the minutes is ignored. */
  function ParseDayTime(text: string): Result<DayTime>
  {
    match ScanInt2(text)
    case Err(e) => Err(e)
    case Ok((hours, rest)) =>
      if rest == [] then Err("unexpected EOF")
      else if rest[0] != ':' then Err("input does not match format")
      else
        match ScanInt2(rest[1..])
        case Err(e) => Err(e)
        case Ok((minutes, _)) => Ok(DayTime(hours, minutes))
  }

  /** `DayTime.UnmarshalJSON`: a JSON string is scanned as "HH:MM"; any other JSON value is refused. */
  function UnmarshalDayTime(v: JsonValue): (r: Result<DayTime>)
    ensures !v.JString? ==> r == Err("Daytime should be in HH:MM format")
  {
    match v
    case JString(s) => ParseDayTime(s)
    case _ => Err("Daytime should be in HH:MM format")
  }

  /** A scan that meets two digits reads both and nothing more. */
  lemma ScanDigitPair(a: char, b: char, rest: string)
    requires IsDigit(a) && IsDigit(b)
    ensures ScanInt2([a, b] + rest) == Ok((DigitValue(a) * 10 + DigitValue(b), rest))
  {
    assert ([a, b] + rest)[2..] == rest;
  }

  /** A scan that meets a minus sign reads it and one digit, the width being spent. */
  lemma ScanMinusDigit(a: char, rest: string)
    requires IsDigit(a)
    ensures ScanInt2(['-', a] + rest) == Ok((-(DigitValue(a) as int), rest))
  {
    assert (['-', a] + rest)[2..] == rest;
  }

  /** Scanning what %02d printed for -9..99 reads the number back and stops right after it. */
  lemma ScanPad2InRange(n: int, rest: string)
    requires -9 <= n <= 99
    ensures ScanInt2(Pad2(n) + rest) == Ok((n, rest))
  {
    if 0 <= n < 10 {
      var d := DigitChar(n);
      assert Pad2(n) + rest == ['0', d] + rest;
      ScanDigitPair('0', d, rest);
    } else if 10 <= n {
      var d1, d0 := DigitChar(n / 10), DigitChar(n % 10);
      assert NatToDecimal(n) == [d1, d0];
      assert Pad2(n) + rest == [d1, d0] + rest;
      ScanDigitPair(d1, d0, rest);
    } else {
      var d := DigitChar(-n);
      assert Pad2(n) + rest == ['-', d] + rest;
      ScanMinusDigit(d, rest);
    }
  }

  /** Outside -9..99 the scan reads a different number and leaves a digit unread. */
  lemma ScanPad2OutOfRange(n: int, rest: string)
    requires !(-9 <= n <= 99)
    ensures ScanInt2(Pad2(n) + rest).Ok?
    ensures var (v, r) := ScanInt2(Pad2(n) + rest).value;
      v != n && -9 <= v <= 99 && r != [] && IsDigit(r[0])
  {
    if n >= 100 {
      ScanThreeDigits(n, rest);
    } else {
      ScanLongNegative(n, rest);
    }
  }

  /** From 100 on, the scan reads the two leading digits and leaves the third. */
  lemma ScanThreeDigits(n: int, rest: string)
    requires n >= 100
    ensures ScanInt2(Pad2(n) + rest).Ok?
    ensures var (v, r) := ScanInt2(Pad2(n) + rest).value;
      0 <= v <= 99 && r != [] && IsDigit(r[0])
  {
    NatToDecimalLength(n);
    var digits := NatToDecimal(n);
    assert Pad2(n) == digits;
    assert Pad2(n) + rest == [digits[0], digits[1]] + (digits[2..] + rest);
    ScanDigitPair(digits[0], digits[1], digits[2..] + rest);
  }

  /** From -10 down, the scan reads the sign and one digit and leaves the next digit. */
  lemma ScanLongNegative(n: int, rest: string)
    requires n <= -10
    ensures ScanInt2(Pad2(n) + rest).Ok?
    ensures var (v, r) := ScanInt2(Pad2(n) + rest).value;
      -9 <= v <= 0 && r != [] && IsDigit(r[0])
  {
    NatToDecimalLength(-n);
    var digits := NatToDecimal(-n);
    assert Pad2(n) == "-" + digits;
    assert Pad2(n) + rest == ['-', digits[0]] + (digits[1..] + rest);
    ScanMinusDigit(digits[0], digits[1..] + rest);
  }

  /**
   * Unmarshalling the marshalled text gives the same DayTime exactly when
   * both fields lie in -9..99, in particular for every 00:00..99:99.
   */
  lemma DayTimeRoundTrip(d: DayTime)
    ensures UnmarshalDayTime(MarshalDayTime(d)) == Ok(d)
        <==> -9 <= d.hours <= 99 && -9 <= d.minutes <= 99
  {
    var text := DayTimeText(d);
    var tail := ":" + Pad2(d.minutes);
    assert text == Pad2(d.hours) + tail;
    assert Pad2(d.minutes) + "" == Pad2(d.minutes);
    if -9 <= d.hours <= 99 {
      ScanPad2InRange(d.hours, tail);
      assert tail[1..] == Pad2(d.minutes) + "";
      if -9 <= d.minutes <= 99 {
        ScanPad2InRange(d.minutes, "");
      } else {
        ScanPad2OutOfRange(d.minutes, "");
      }
    } else {
      ScanPad2OutOfRange(d.hours, tail);
    }
  }

  /** `DayTime.Duration()`: the time of day as a duration since midnight. */
  function DayTimeDuration(d: DayTime): (r: int)
    ensures r == (d.hours * 60 + d.minutes) * Minute
  {
    Hour * d.hours + Minute * d.minutes
  }

  // ---------------------------------------------------------------------
  // PlayerType
  // ---------------------------------------------------------------------

  /** `PlayerType` is an int; only Java (0) and Bedrock (1) are named. */
  const Java: int := 0
  const Bedrock: int := 1

  /** `PlayerType.MarshalJSON`: the name of a known kind, an error for any other number. */
  function MarshalPlayerType(pt: int): (r: Result<JsonValue>)
    ensures r.Ok? <==> pt == Java || pt == Bedrock
    ensures pt == Java ==> r == Ok(JString("Java"))
    ensures pt == Bedrock ==> r == Ok(JString("Bedrock"))
    ensures r.Err? ==> r.error == "Invalid player type: " + IntToDecimal(pt)
  {
    if pt == Java then Ok(JString("Java"))
    else if pt == Bedrock then Ok(JString("Bedrock"))
    else Err("Invalid player type: " + IntToDecimal(pt))
  }

  /** `PlayerType.UnmarshalJSON`: only the strings "Java" and "Bedrock" decode. */
  function UnmarshalPlayerType(v: JsonValue): (r: Result<int>)
    ensures r.Ok? <==> v == JString("Java") || v == JString("Bedrock")
    ensures r.Ok? ==> r.value == Java || r.value == Bedrock
    ensures v.JString? && r.Err? ==> r.error == "invalid player type"
    ensures !v.JString? ==> r == Err("Player type should be a string")
  {
    match v
    case JString(s) =>
      if s == "Java" then Ok(Java)
      else if s == "Bedrock" then Ok(Bedrock)
      else Err("invalid player type")
    case _ => Err("Player type should be a string")
  }

  /** Decoding an encoded kind gives it back, and encoding a decoded value gives the value back. */
  lemma PlayerTypeRoundTrip(pt: int, v: JsonValue)
    ensures MarshalPlayerType(pt).Ok? ==> UnmarshalPlayerType(MarshalPlayerType(pt).value) == Ok(pt)
    ensures UnmarshalPlayerType(v).Ok? ==> MarshalPlayerType(UnmarshalPlayerType(v).value) == Ok(v)
  {
  }
}
