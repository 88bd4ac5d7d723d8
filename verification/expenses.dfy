/**
 * The expense parser of the bot (financer-bot/main.go, ParseMessage) and the
 * values it produces (financer-bot/storage.go, Record).
 *
 * A message is read line by line. A line of the form `D.M` (one or two
 * digits each) changes the date of the records that follow; any other line
 * with at least one field yields a record when its amount is positive. The
 * amount is the last field that reads as a 32-bit decimal integer, taken
 * modulo 2^32 as Go's uint32 conversion does; the other fields, joined by
 * single spaces, make the name.
 */
module Expenses {
  import opened Wrappers
  import opened GoText

  // ---------------------------------------------------------------------
  // Dates and records
  // ---------------------------------------------------------------------

  /**
   * The parts of a time.Time the bot looks at: year, month, day of month and
   * the time of day (in nanoseconds). Month and day are kept as written,
   * without the calendar normalisation of time.Date.
   */
  datatype Date = Date(year: int, month: int, day: int, clock: int)

  /** `time.Time.Before`: strictly earlier, field by field. */
  predicate Before(a: Date, b: Date)
  {
    || a.year < b.year
    || (a.year == b.year && a.month < b.month)
    || (a.year == b.year && a.month == b.month && a.day < b.day)
    || (a.year == b.year && a.month == b.month && a.day == b.day && a.clock < b.clock)
  }

  /** Before is a strict total order on dates. */
  lemma BeforeIsStrictTotalOrder(a: Date, b: Date, c: Date)
    ensures !Before(a, a)
    ensures Before(a, b) ==> !Before(b, a)
    ensures Before(a, b) && Before(b, c) ==> Before(a, c)
    ensures a == b || Before(a, b) || Before(b, a)
  {
  }

  const Uint32Modulus: int := 0x1_0000_0000

  type Uint32 = n: int | 0 <= n < Uint32Modulus

  /** Go's `uint32(v)` conversion of a signed integer: v modulo 2^32. */
  function Wrap32(v: int): (w: Uint32)
    ensures 0 <= v < Uint32Modulus ==> w == v
    ensures (w - v) % Uint32Modulus == 0
  {
    v % Uint32Modulus
  }

  /** A spending: when, on what, how much, and its number within the chat (0 until the handler numbers it). */
  datatype Record = Record(date: Date, name: string, amount: Uint32, id: int)

  // ---------------------------------------------------------------------
  // Date lines: ^\d{1,2}\.\d{1,2}$
  // ---------------------------------------------------------------------

  /** The line is one or two digits, a dot at position k, then one or two digits, and nothing else. */
  predicate DotAt(line: string, k: nat)
  {
    && 1 <= k <= 2
    && k < |line|
    && line[k] == '.'
    && 1 <= |line| - (k + 1) <= 2
    && IsDigits(line[..k])
    && IsDigits(line[k + 1..])
  }

  /** The line matches `^\d{1,2}\.\d{1,2}$`. */
  predicate IsDateLine(line: string)
  {
    DotAt(line, 1) || DotAt(line, 2)
  }

  /** Where the dot of a date line is. */
  function DotIndex(line: string): (k: nat)
    requires IsDateLine(line)
    ensures DotAt(line, k)
  {
    if DotAt(line, 1) then 1 else 2
  }

  /** A date line splits at its dot into the day and month texts. */
  lemma DateLineSplit(line: string)
    requires IsDateLine(line)
    ensures Split(line, '.') == [line[..DotIndex(line)], line[DotIndex(line) + 1..]]
  {
    var k := DotIndex(line);
    assert line == line[..k] + ['.'] + line[k + 1..];
    assert '.' !in line[..k];
    assert '.' !in line[k + 1..];
    SplitOnce(line[..k], line[k + 1..], '.');
  }

  /** `v, _ := strconv.ParseInt(...)`: the value, or 0 on a syntax error. */
  function ValueOrZero(r: Option<int>): int
  {
    if r.Some? then r.value else 0
  }

  /**
   * The date set by a date line: the year of the current date, the written
   * month and day, at midnight.
   */
  function SetDate(date: Date, line: string): (d: Date)
    requires IsDateLine(line)
    ensures d.year == date.year && d.clock == 0
  {
    DateLineSplit(line);
    var ints := Split(line, '.');
    Date(date.year, ValueOrZero(ParseSignedDecimal(ints[1])), ValueOrZero(ParseSignedDecimal(ints[0])), 0)
  }

  /** The day and month of a date line are the numbers its digits write, each below 100. */
  lemma SetDateReadsDigits(date: Date, line: string)
    requires IsDateLine(line)
    ensures var k := DotIndex(line);
      && SetDate(date, line) == Date(date.year, DigitsValue(line[k + 1..]), DigitsValue(line[..k]), 0)
      && 0 <= SetDate(date, line).month < 100
      && 0 <= SetDate(date, line).day < 100
  {
    var k := DotIndex(line);
    DateLineSplit(line);
    TwoDigitsBound(line[..k]);
    TwoDigitsBound(line[k + 1..]);
  }

  /** A date line is never blank. */
  lemma DateLineNotBlank(line: string)
    requires IsDateLine(line)
    ensures !IsBlank(line)
  {
    assert IsDigit(line[..DotIndex(line)][0]);
  }

  // ---------------------------------------------------------------------
  // Fields of a line
  // ---------------------------------------------------------------------

  /** The fields that do not read as 32-bit decimal integers, in their order. */
  function NameBits(parts: seq<string>): (bits: seq<string>)
    ensures |bits| <= |parts|
    ensures forall k :: 0 <= k < |bits| ==> bits[k] in parts && ParseInt32(bits[k]).None?
  {
    if parts == [] then []
    else
      var last := parts[|parts| - 1];
      NameBits(parts[..|parts| - 1]) + (if ParseInt32(last).None? then [last] else [])
  }

  /** The last field that reads as a 32-bit decimal integer, wrapped to uint32; 0 when there is none. */
  function FieldAmount(parts: seq<string>): Uint32
  {
    if parts == [] then 0
    else
      match ParseInt32(parts[|parts| - 1])
      case Some(v) => Wrap32(v)
      case None => FieldAmount(parts[..|parts| - 1])
  }

  /** The name bits of two runs of fields are those of the first run, then those of the second. */
  lemma {:induction false} NameBitsAppend(a: seq<string>, b: seq<string>)
    ensures NameBits(a + b) == NameBits(a) + NameBits(b)
  {
    if b != [] {
      var init := b[..|b| - 1];
      assert (a + b)[..|a + b| - 1] == a + init;
      NameBitsAppend(a, init);
    } else {
      assert a + b == a;
    }
  }

  /** A field that is not an integer stays in the name; an integer field never does. */
  lemma NameBitsOfOne(w: string)
    ensures NameBits([w]) == if ParseInt32(w).None? then [w] else []
  {
    assert [w][..0] == [];
  }

  /** With no integer field, every field is part of the name. */
  lemma {:induction false} NameBitsAllWords(parts: seq<string>)
    requires forall k :: 0 <= k < |parts| ==> ParseInt32(parts[k]).None?
    ensures NameBits(parts) == parts
  {
    if parts != [] {
      NameBitsAllWords(parts[..|parts| - 1]);
    }
  }

  /** The amount is the wrapped value of the integer field at k when no later field is an integer. */
  lemma {:induction false} FieldAmountIsLastInteger(parts: seq<string>, k: nat)
    requires k < |parts| && ParseInt32(parts[k]).Some?
    requires forall j :: k < j < |parts| ==> ParseInt32(parts[j]).None?
    ensures FieldAmount(parts) == Wrap32(ParseInt32(parts[k]).value)
  {
    if k < |parts| - 1 {
      var init := parts[..|parts| - 1];
      assert init[k] == parts[k];
      FieldAmountIsLastInteger(init, k);
    }
  }

  /** Without any integer field the amount is 0. */
  lemma {:induction false} FieldAmountWithoutIntegers(parts: seq<string>)
    requires forall j :: 0 <= j < |parts| ==> ParseInt32(parts[j]).None?
    ensures FieldAmount(parts) == 0
  {
    if parts != [] {
      FieldAmountWithoutIntegers(parts[..|parts| - 1]);
    }
  }

  // ---------------------------------------------------------------------
  // Lines and messages
  // ---------------------------------------------------------------------

  /** What a line other than a date line contributes: a record when it has fields and a positive amount. */
  function LineRecord(date: Date, line: string): (r: Option<Record>)
    ensures r.Some? ==> r.value.amount > 0 && r.value.date == date && r.value.id == 0
    ensures IsBlank(line) ==> r.None?
  {
    var parts := Fields(line);
    if |parts| < 1 then None
    else
      var amount := FieldAmount(parts);
      if amount > 0 then Some(Record(date, Join(NameBits(parts), " "), amount, 0)) else None
  }

  /** A line whose last field is `0` yields no record: the zero amount is the last integer. */
  lemma TrailingZeroSuppresses(date: Date, line: string)
    requires |Fields(line)| >= 1 && Fields(line)[|Fields(line)| - 1] == "0"
    ensures LineRecord(date, line) == None
  {
    assert ParseSignedDecimal("0") == Some(0) by {
      assert "0"[..0] == [];
    }
  }

  /** A line with no integer field yields no record. */
  lemma LineWithoutAmount(date: Date, line: string)
    requires forall j :: 0 <= j < |Fields(line)| ==> ParseInt32(Fields(line)[j]).None?
    ensures LineRecord(date, line) == None
  {
    FieldAmountWithoutIntegers(Fields(line));
  }

  /** A negative amount wraps around: the record is kept with the amount plus 2^32. */
  lemma NegativeAmountWraps(date: Date, line: string, k: nat)
    requires k < |Fields(line)| && ParseInt32(Fields(line)[k]).Some? && ParseInt32(Fields(line)[k]).value < 0
    requires forall j :: k < j < |Fields(line)| ==> ParseInt32(Fields(line)[j]).None?
    ensures LineRecord(date, line).Some?
    ensures LineRecord(date, line).value.amount == ParseInt32(Fields(line)[k]).value + Uint32Modulus
  {
    FieldAmountIsLastInteger(Fields(line), k);
  }

  /**
   * A line of one word that is not a number, a blank and a positive 32-bit
   * amount (`tea 5`, say) is a record of that name and amount.
   */
  lemma NameAndAmountLine(date: Date, name: string, n: int)
    requires IsWord(name) && ParseInt32(name).None?
    requires 0 < n <= MaxInt32
    ensures LineRecord(date, name + " " + IntToDecimal(n)) == Some(Record(date, name, n, 0))
  {
    var digits := IntToDecimal(n);
    assert IsWord(digits) by {
      assert digits == NatToDecimal(n);
      assert forall i :: 0 <= i < |digits| ==> IsDigit(digits[i]);
    }
    FieldsOfTwoWords(name, digits);
    ParseInt32RoundTrip(n);
    var parts := [name, digits];
    assert parts[..1] == [name];
    assert [name][..0] == [];
    assert NameBits(parts) == [name];
    assert FieldAmount(parts) == n;
  }

  /** The date and the records after reading some lines. */
  datatype ParseState = ParseState(date: Date, records: seq<Record>)

  /** ParseMessage's view of a sequence of lines, starting from a given date. */
  function ParseLines(lines: seq<string>, start: Date): (st: ParseState)
    ensures |st.records| <= |lines|
    ensures forall k :: 0 <= k < |st.records| ==> st.records[k].amount > 0 && st.records[k].id == 0
  {
    if lines == [] then ParseState(start, [])
    else
      var st := ParseLines(lines[..|lines| - 1], start);
      var line := lines[|lines| - 1];
      if IsDateLine(line) then ParseState(SetDate(st.date, line), st.records)
      else
        match LineRecord(st.date, line)
        case Some(r) => ParseState(st.date, st.records + [r])
        case None => st
  }

  /** The records of a message received when the clock read `now`. */
  function Parse(text: string, now: Date): (records: seq<Record>)
    ensures forall k :: 0 <= k < |records| ==> records[k].amount > 0
  {
    ParseLines(Split(text, '\n'), now).records
  }

  /**
   * Reading two runs of lines is reading the first, then the second from the
   * date the first left: records come out in line order.
   */
  lemma {:induction false} ParseLinesAppend(a: seq<string>, b: seq<string>, start: Date)
    ensures var first := ParseLines(a, start);
      ParseLines(a + b, start) == ParseState(ParseLines(b, first.date).date, first.records + ParseLines(b, first.date).records)
  {
    if b == [] {
      assert a + b == a;
    } else {
      var init := b[..|b| - 1];
      assert (a + b)[..|a + b| - 1] == a + init;
      assert (a + b)[|a + b| - 1] == b[|b| - 1];
      ParseLinesAppend(a, init, start);
    }
  }

  /** Each line adds at most one record. */
  lemma OneRecordPerLine(lines: seq<string>, line: string, start: Date)
    ensures var before := ParseLines(lines, start).records;
      var after := ParseLines(lines + [line], start).records;
      |before| <= |after| <= |before| + 1 && after[..|before|] == before
  {
    assert (lines + [line])[..|lines|] == lines;
  }

  /** A blank line changes nothing, wherever it stands. */
  lemma BlankLineSkipped(a: seq<string>, line: string, b: seq<string>, start: Date)
    requires IsBlank(line)
    ensures ParseLines(a + [line] + b, start) == ParseLines(a + b, start)
  {
    if IsDateLine(line) {
      DateLineNotBlank(line);
    }
    assert (a + [line])[..|a|] == a;
    ParseLinesAppend(a + [line], b, start);
    ParseLinesAppend(a, b, start);
  }

  predicate NoDateLines(lines: seq<string>)
  {
    forall k :: 0 <= k < |lines| ==> !IsDateLine(lines[k])
  }

  /** Without date lines the date stays and every record carries it. */
  lemma {:induction false} UndatedLinesKeepDate(lines: seq<string>, start: Date)
    requires NoDateLines(lines)
    ensures ParseLines(lines, start).date == start
    ensures forall k :: 0 <= k < |ParseLines(lines, start).records| ==> ParseLines(lines, start).records[k].date == start
  {
    if lines != [] {
      UndatedLinesKeepDate(lines[..|lines| - 1], start);
    }
  }

  /** A date line dates every record of the lines after it, up to the next date line. */
  lemma DateLineDatesFollowingRecords(a: seq<string>, line: string, b: seq<string>, start: Date)
    requires IsDateLine(line) && NoDateLines(b)
    ensures var before := ParseLines(a, start);
      var d := SetDate(before.date, line);
      var all := ParseLines(a + [line] + b, start).records;
      && ParseLines(a + [line], start) == ParseState(d, before.records)
      && all == before.records + ParseLines(b, d).records
      && forall k :: |before.records| <= k < |all| ==> all[k].date == d
  {
    assert (a + [line])[..|a|] == a;
    ParseLinesAppend(a + [line], b, start);
    UndatedLinesKeepDate(b, SetDate(ParseLines(a, start).date, line));
  }

  // ---------------------------------------------------------------------
  // ParseMessage
  // ---------------------------------------------------------------------

  /** `ParseMessage`: split into lines, track the date, collect one record per line with a positive amount. */
  method ParseMessage(text: string, now: Date) returns (result: seq<Record>)
    ensures result == Parse(text, now)
  {
    var lines := Split(text, '\n');
    var date := now;
    result := [];
    for i := 0 to |lines|
      invariant ParseLines(lines[..i], now) == ParseState(date, result)
    {
      assert lines[..i + 1][..i] == lines[..i];
      var line := lines[i];
      if IsDateLine(line) {
        date := SetDate(date, line);
        continue;
      }
      var parts := Fields(line);
      if |parts| < 1 {
        continue;
      }
      var nameBits, amount := ScanFields(parts);
      if amount > 0 {
        result := result + [Record(date, Join(nameBits, " "), amount, 0)];
      }
    }
    assert lines[..|lines|] == lines;
  }

  /** The loop over a line's fields: integers set the amount, the other fields join the name. */
  method ScanFields(parts: seq<string>) returns (nameBits: seq<string>, amount: Uint32)
    ensures nameBits == NameBits(parts) && amount == FieldAmount(parts)
  {
    nameBits, amount := [], 0;
    for j := 0 to |parts|
      invariant nameBits == NameBits(parts[..j])
      invariant amount == FieldAmount(parts[..j])
    {
      assert parts[..j + 1][..j] == parts[..j];
      var parsed := ParseInt32(parts[j]);
      if parsed.None? {
        nameBits := nameBits + [parts[j]];
      } else {
        amount := Wrap32(parsed.value);
      }
    }
    assert parts[..|parts|] == parts;
  }
}
