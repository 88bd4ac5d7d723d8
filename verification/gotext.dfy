/**
 * The pieces of Go's `strings`, `strconv` and `fmt` packages that the
 * launcher and the expense bot rely on, restricted to ASCII text.
 */
module GoText {
  import opened Wrappers

  // ---------------------------------------------------------------------
  // Decimal digits
  // ---------------------------------------------------------------------

  predicate IsDigit(c: char) { '0' <= c <= '9' }

  predicate IsDigits(s: string) { forall i :: 0 <= i < |s| ==> IsDigit(s[i]) }

  function DigitValue(c: char): (d: nat)
    requires IsDigit(c)
    ensures d < 10
  {
    (c as int - '0' as int) as nat
  }

  function DigitChar(d: nat): (c: char)
    requires d < 10
    ensures IsDigit(c) && DigitValue(c) == d
  {
    ('0' as int + d) as char
  }

  /** The number written by a string of decimal digits (most significant first). */
  function DigitsValue(s: string): nat
    requires IsDigits(s)
  {
    if s == [] then 0 else DigitsValue(s[..|s| - 1]) * 10 + DigitValue(s[|s| - 1])
  }

  /** `strconv.Itoa` / `%d` / `%v` of a non-negative integer. */
  function NatToDecimal(n: nat): (s: string)
    ensures 1 <= |s| && IsDigits(s)
    ensures s[0] == '0' ==> n == 0
  {
    if n < 10 then [DigitChar(n)] else NatToDecimal(n / 10) + [DigitChar(n % 10)]
  }

  /** `%d` / `%v` of any integer: a minus sign, then the digits of the magnitude. */
  function IntToDecimal(n: int): (s: string)
    ensures 1 <= |s|
  {
    if n < 0 then "-" + NatToDecimal(-n) else NatToDecimal(n)
  }

  /** Reading back what NatToDecimal wrote gives the number. */
  lemma {:induction false} NatToDecimalValue(n: nat)
    ensures DigitsValue(NatToDecimal(n)) == n
  {
    if n >= 10 {
      NatToDecimalValue(n / 10);
      var s := NatToDecimal(n);
      assert s[..|s| - 1] == NatToDecimal(n / 10);
    }
  }

  /** The number of digits NatToDecimal writes for the small ranges %02d cares about. */
  lemma {:induction false} NatToDecimalLength(n: nat)
    ensures n < 10 <==> |NatToDecimal(n)| == 1
    ensures 10 <= n < 100 <==> |NatToDecimal(n)| == 2
    ensures 100 <= n <==> |NatToDecimal(n)| >= 3
  {
    if n >= 10 {
      NatToDecimalLength(n / 10);
    }
  }

  /** The value of the leading digits of a string of digits never exceeds the whole. */
  lemma {:induction false} DigitsValuePrefix(s: string, k: nat)
    requires IsDigits(s) && k <= |s|
    ensures DigitsValue(s[..k]) <= DigitsValue(s)
  {
    if k < |s| {
      var init := s[..|s| - 1];
      assert s[..k] == init[..k];
      DigitsValuePrefix(init, k);
      assert DigitsValue(init) <= DigitsValue(init) * 10;
      assert DigitsValue(s) == DigitsValue(init) * 10 + DigitValue(s[|s| - 1]);
    } else {
      assert s[..k] == s;
    }
  }

  /** Two digits never write more than 99. */
  lemma TwoDigitsBound(s: string)
    requires IsDigits(s) && |s| <= 2
    ensures DigitsValue(s) < 100
  {
    if |s| == 2 {
      assert s[..1][..0] == [];
    }
  }

  // ---------------------------------------------------------------------
  // strconv.ParseInt(s, 10, bitSize)
  // ---------------------------------------------------------------------

  /** An optional `+` or `-` followed by one or more decimal digits, read as an unbounded integer. */
  function ParseSignedDecimal(s: string): (r: Option<int>)
    ensures r.Some? ==> |s| >= 1 && (IsDigit(s[0]) || s[0] == '+' || s[0] == '-')
  {
    if s == [] then None
    else
      var body := if s[0] == '+' || s[0] == '-' then s[1..] else s;
      if body == [] || !IsDigits(body) then None
      else if s[0] == '-' then Some(-(DigitsValue(body) as int))
      else Some(DigitsValue(body))
  }

  const MinInt32: int := -0x8000_0000
  const MaxInt32: int := 0x7FFF_FFFF

  /**
   * `strconv.ParseInt(s, 10, 32)`: a signed decimal that fits in 32 bits.
   * Any other text (empty, stray characters, out of range) is an error.
   */
  function ParseInt32(s: string): (r: Option<int>)
    ensures r.Some? ==> MinInt32 <= r.value <= MaxInt32
    ensures r.Some? ==> ParseSignedDecimal(s) == r
    ensures ParseSignedDecimal(s).Some? && MinInt32 <= ParseSignedDecimal(s).value <= MaxInt32 ==> r.Some?
  {
    match ParseSignedDecimal(s)
    case Some(v) => if MinInt32 <= v <= MaxInt32 then Some(v) else None
    case None => None
  }

  /** Printing an integer and parsing it back gives the integer. */
  lemma IntToDecimalParses(n: int)
    ensures ParseSignedDecimal(IntToDecimal(n)) == Some(n)
  {
    var m: nat := if n < 0 then -n else n;
    NatToDecimalValue(m);
    SignedDigitsParse(NatToDecimal(m));
  }

  /** Digits read as their value, and after a minus sign as its negation. */
  lemma SignedDigitsParse(d: string)
    requires d != [] && IsDigits(d)
    ensures ParseSignedDecimal(d) == Some(DigitsValue(d) as int)
    ensures ParseSignedDecimal("-" + d) == Some(-(DigitsValue(d) as int))
  {
    assert IsDigit(d[0]);
    assert ("-" + d)[1..] == d;
  }

  /** Every 32-bit integer survives the round trip through its decimal text. */
  lemma ParseInt32RoundTrip(n: int)
    requires MinInt32 <= n <= MaxInt32
    ensures ParseInt32(IntToDecimal(n)) == Some(n)
  {
    IntToDecimalParses(n);
  }

  // ---------------------------------------------------------------------
  // strings.Contains
  // ---------------------------------------------------------------------

  predicate HasPrefix(s: string, p: string) { |p| <= |s| && s[..|p|] == p }

  /** `strings.Contains(s, sub)`: sub occurs somewhere in s (the empty string occurs everywhere). */
  predicate Contains(s: string, sub: string)
    decreases |s|
  {
    HasPrefix(s, sub) || (|s| > 0 && Contains(s[1..], sub))
  }

  /** Contains holds exactly when sub starts at some position of s. */
  lemma {:induction false} ContainsAt(s: string, sub: string)
    ensures Contains(s, sub) <==> exists i :: 0 <= i <= |s| && HasPrefix(s[i..], sub)
  {
    if |s| > 0 {
      ContainsAt(s[1..], sub);
      if HasPrefix(s, sub) {
        assert s[0..] == s;
      }
      if Contains(s[1..], sub) {
        var i :| 0 <= i <= |s[1..]| && HasPrefix(s[1..][i..], sub);
        assert s[1..][i..] == s[i + 1..];
        assert HasPrefix(s[i + 1..], sub);
      }
      if exists i :: 0 <= i <= |s| && HasPrefix(s[i..], sub) {
        var i :| 0 <= i <= |s| && HasPrefix(s[i..], sub);
        if i > 0 {
          assert s[1..][i - 1..] == s[i..];
          assert HasPrefix(s[1..][i - 1..], sub);
          assert Contains(s[1..], sub);
        } else {
          assert s[0..] == s;
        }
        assert Contains(s, sub);
      }
    } else {
      assert s[0..] == s;
    }
  }

  /** A string contains every string it starts with, in particular itself. */
  lemma ContainsPrefix(s: string, p: string)
    requires HasPrefix(s, p)
    ensures Contains(s, p)
  {
  }

  // ---------------------------------------------------------------------
  // strings.Split, strings.Join, strings.Fields
  // ---------------------------------------------------------------------

  /** `strings.Join(parts, sep)`. */
  function Join(parts: seq<string>, sep: string): string
  {
    if parts == [] then ""
    else if |parts| == 1 then parts[0]
    else parts[0] + sep + Join(parts[1..], sep)
  }

  /** `strings.Split(s, [sep])` for a one-character separator. */
  function Split(s: string, sep: char): (parts: seq<string>)
    ensures |parts| >= 1
    ensures forall k :: 0 <= k < |parts| ==> sep !in parts[k]
  {
    if s == [] then [""]
    else
      var rest := Split(s[1..], sep);
      if s[0] == sep then [""] + rest
      else [[s[0]] + rest[0]] + rest[1..]
  }

  /** Joining the pieces of a split with the separator restores the text. */
  lemma {:induction false} SplitJoin(s: string, sep: char)
    ensures Join(Split(s, sep), [sep]) == s
  {
    if s != [] {
      SplitJoin(s[1..], sep);
      var rest := Split(s[1..], sep);
      if s[0] != sep {
        if |rest| == 1 {
        } else {
          assert rest == [rest[0]] + rest[1..];
          assert Join(rest, [sep]) == rest[0] + [sep] + Join(rest[1..], [sep]);
        }
      }
    }
  }

  /** Text without the separator splits into itself alone. */
  lemma {:induction false} SplitWithoutSeparator(s: string, sep: char)
    requires sep !in s
    ensures Split(s, sep) == [s]
  {
    if s != [] {
      assert sep !in s[1..];
      SplitWithoutSeparator(s[1..], sep);
      assert [s[0]] + s[1..] == s;
    }
  }

  /** Text with exactly one separator splits into the pieces before and after it. */
  lemma {:induction false} SplitOnce(a: string, b: string, sep: char)
    requires sep !in a && sep !in b
    ensures Split(a + [sep] + b, sep) == [a, b]
  {
    if a == [] {
      assert a + [sep] + b == [sep] + b;
      assert ([sep] + b)[1..] == b;
      SplitWithoutSeparator(b, sep);
    } else {
      assert (a + [sep] + b)[1..] == a[1..] + [sep] + b;
      assert sep !in a[1..];
      SplitOnce(a[1..], b, sep);
      assert [a[0]] + a[1..] == a;
    }
  }

  /** The white-space characters of `unicode.IsSpace` in the ASCII range. */
  predicate IsSpace(c: char)
  {
    c == ' ' || c == '\t' || c == '\n' || c == '\U{000B}' || c == '\U{000C}' || c == '\r'
  }

  /** A string made of white space only (possibly empty). */
  predicate IsBlank(s: string) { forall i :: 0 <= i < |s| ==> IsSpace(s[i]) }

  /** A non-empty run of non-space characters. */
  predicate IsWord(w: string) { w != [] && forall i :: 0 <= i < |w| ==> !IsSpace(w[i]) }

  /** Scans s left to right; cur holds the characters of the field being read. */
  function FieldsFrom(s: string, cur: string): (fs: seq<string>)
    requires cur == [] || IsWord(cur)
    ensures forall k :: 0 <= k < |fs| ==> IsWord(fs[k])
    ensures fs == [] <==> cur == [] && IsBlank(s)
  {
    if s == [] then (if cur == [] then [] else [cur])
    else if IsSpace(s[0]) then (if cur == [] then [] else [cur]) + FieldsFrom(s[1..], [])
    else FieldsFrom(s[1..], cur + [s[0]])
  }

  /** `strings.Fields(s)`: the maximal runs of non-space characters, in order. */
  function Fields(s: string): (fs: seq<string>)
    ensures forall k :: 0 <= k < |fs| ==> IsWord(fs[k])
    ensures fs == [] <==> IsBlank(s)
  {
    FieldsFrom(s, [])
  }

  /** Reading a run of non-space characters extends the field being read. */
  lemma {:induction false} FieldsFromWord(w: string, rest: string, cur: string)
    requires cur == [] || IsWord(cur)
    requires forall i :: 0 <= i < |w| ==> !IsSpace(w[i])
    ensures FieldsFrom(w + rest, cur) == FieldsFrom(rest, cur + w)
    decreases |w|
  {
    if w == [] {
      assert w + rest == rest;
      assert cur + w == cur;
    } else {
      assert (w + rest)[0] == w[0];
      assert (w + rest)[1..] == w[1..] + rest;
      assert IsWord(cur + [w[0]]) by {
        assert forall i :: 0 <= i < |cur| ==> (cur + [w[0]])[i] == cur[i];
      }
      FieldsFromWord(w[1..], rest, cur + [w[0]]);
      assert cur + [w[0]] + w[1..] == cur + w;
    }
  }

  /** Leading white space contributes no field. */
  lemma {:induction false} FieldsSkipBlanks(s: string, k: nat)
    requires k <= |s| && IsBlank(s[..k])
    ensures Fields(s) == Fields(s[k..])
  {
    if k > 0 {
      assert IsSpace(s[..k][0]);
      assert s[1..][..k - 1] == s[..k][1..];
      FieldsSkipBlanks(s[1..], k - 1);
      assert s[1..][k - 1..] == s[k..];
    }
  }

  /**
   * `strings.Fields` splits at maximal runs: a line made of white space, a
   * word, and a rest that is empty or starts with white space has that word
   * as its first field, followed by the fields of the rest. Every line that
   * is not blank splits this way, so with the blank case (no fields) this
   * determines the fields of every line.
   */
  lemma FieldsFirstRun(b: string, w: string, r: string)
    requires IsBlank(b) && IsWord(w) && (r == [] || IsSpace(r[0]))
    ensures Fields(b + w + r) == [w] + Fields(r)
  {
    var s := b + w + r;
    assert s[..|b|] == b;
    FieldsSkipBlanks(s, |b|);
    assert s[|b|..] == w + r;
    FieldsOfWordThenRest(w, r);
  }

  /** Words joined by single blanks are read back as those words. */
  lemma {:induction false} FieldsOfJoin(ws: seq<string>)
    requires forall k :: 0 <= k < |ws| ==> IsWord(ws[k])
    ensures Fields(Join(ws, " ")) == ws
  {
    if ws == [] {
      assert IsBlank("");
    } else if |ws| == 1 {
      assert ws[0] + [] == ws[0];
      FieldsOfWordThenRest(ws[0], []);
      assert IsBlank([]);
    } else {
      var rest := Join(ws[1..], " ");
      assert Join(ws, " ") == ws[0] + (" " + rest);
      FieldsOfWordThenRest(ws[0], " " + rest);
      assert (" " + rest)[..1] == " " && (" " + rest)[1..] == rest;
      FieldsSkipBlanks(" " + rest, 1);
      FieldsOfJoin(ws[1..]);
    }
  }

  /** A word followed by nothing or by white space is the first field. */
  lemma FieldsOfWordThenRest(w: string, r: string)
    requires IsWord(w) && (r == [] || IsSpace(r[0]))
    ensures Fields(w + r) == [w] + Fields(r)
  {
    FieldsFromWord(w, r, []);
    assert [] + w == w;
    if r != [] {
      assert FieldsFrom(r, w) == [w] + FieldsFrom(r[1..], []);
    }
  }

  /** Two words separated by one blank are the two fields of the line. */
  lemma FieldsOfTwoWords(a: string, b: string)
    requires IsWord(a) && IsWord(b)
    ensures Fields(a + " " + b) == [a, b]
  {
    var tail := " " + b;
    assert a + " " + b == a + tail;
    FieldsFromWord(a, tail, []);
    assert [] + a == a;
    assert FieldsFrom(a + tail, []) == FieldsFrom(tail, a);
    assert tail[0] == ' ' && tail[1..] == b;
    assert FieldsFrom(tail, a) == [a] + FieldsFrom(b, []);
    FieldsFromWord(b, [], []);
    assert b + [] == b && [] + b == b;
    assert FieldsFrom(b, []) == [b];
  }
}
