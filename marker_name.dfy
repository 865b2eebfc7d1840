/**
  Names of the status-marker files that the file-folder example writes on every
  change of preprocessing status (image_file_folder_continuous_example/main.cc).

  A name is `<timestamp>_<code>`: the epoch-microsecond clock reading in decimal,
  right-aligned in a field of at least 16 characters filled with '0', an
  underscore, and the status code as an `int`, right-aligned in a field of at
  least 2 characters filled with '0'. The field widths are minimums, as
  `std::setw` makes them: a longer number is written with all its digits.
*/
module MarkerName {
  import opened Wrappers

  const TimestampWidth: nat := 16
  const CodeWidth: nat := 2
  /** Length of every name whose timestamp and code fit their fields. */
  const NameLength: nat := TimestampWidth + 1 + CodeWidth

  /** The clock reading is held in a `uint64_t`. */
  const U64Limit: nat := 0x1_0000_0000_0000_0000
  type Micros = t: nat | t < U64Limit

  function Max(a: int, b: int): int { if a < b then b else a }

  function Pow10(n: nat): (p: nat)
    ensures p >= 1
  {
    if n == 0 then 1 else 10 * Pow10(n - 1)
  }

  predicate IsDigit(c: char) { '0' <= c <= '9' }

  predicate AllDigits(s: string) { forall i :: 0 <= i < |s| ==> IsDigit(s[i]) }

  function DigitChar(d: nat): (c: char)
    requires d < 10
    ensures IsDigit(c)
  {
    ('0' as int + d) as char
  }

  function DigitOf(c: char): (d: nat)
    requires IsDigit(c)
    ensures d < 10 && DigitChar(d) == c
  {
    c as int - '0' as int
  }

  /** The shortest decimal text of `n`, as `operator<<` writes an unsigned integer. */
  function Decimal(n: nat): (s: string)
    ensures 1 <= |s| && AllDigits(s)
    ensures s[0] == '0' ==> n == 0
    decreases n
  {
    if n < 10 then [DigitChar(n)] else Decimal(n / 10) + [DigitChar(n % 10)]
  }

  /** The number a string of decimal digits denotes; leading zeros add nothing. */
  function DigitsValue(s: string): nat
    requires AllDigits(s)
  {
    if s == [] then 0 else 10 * DigitsValue(s[..|s| - 1]) + DigitOf(s[|s| - 1])
  }

  /**
    `s` right-aligned in a field of `width` characters filled with `fill`, as
    `std::setw(width) << std::setfill(fill)` writes it: the width is a minimum,
    and a text at least that long is written unchanged.
  */
  function PadLeft(s: string, width: nat, fill: char): (r: string)
    ensures |r| == Max(|s|, width)
    ensures r[|r| - |s|..] == s
    ensures forall i :: 0 <= i < |r| - |s| ==> r[i] == fill
  {
    if |s| >= width then s else seq(width - |s|, _ => fill) + s
  }

  /**
    The decimal text of an `int`. A negative value carries its sign; the stream
    is right-adjusted, so padding would go before the sign, but "-d" already
    fills a field of 2.
  */
  function IntText(v: int): (s: string)
    ensures 1 <= |s|
    ensures s[0] == '-' <==> v < 0
  {
    if v < 0 then "-" + Decimal(-v) else Decimal(v)
  }

  /** The timestamp field: at least 16 characters, all digits, denoting the clock reading. */
  function TimestampText(ts: Micros): (s: string)
    ensures |s| >= TimestampWidth && AllDigits(s) && DigitsValue(s) == ts
  {
    PaddedDecimal(ts, TimestampWidth);
    PadLeft(Decimal(ts), TimestampWidth, '0')
  }

  /** The code field: at least 2 characters; for a non-negative code, digits denoting it. */
  function CodeText(code: int): (s: string)
    ensures |s| >= CodeWidth
    ensures code >= 0 ==> AllDigits(s) && DigitsValue(s) == code
  {
    var s := PadLeft(IntText(code), CodeWidth, '0');
    if code >= 0 then PaddedDecimal(code, CodeWidth); s else s
  }

  /**
    The marker file name for a status change to `code` observed at `ts`
    microseconds: never shorter than 19 characters, and starting with a
    digit, so never an absolute path.
  */
  function FormatMarker(ts: Micros, code: int): (name: string)
    ensures |name| >= NameLength
    ensures IsDigit(name[0])
  {
    TimestampText(ts) + "_" + CodeText(code)
  }

  /** A clock reading and a status code that fit their fields. */
  predicate InRange(ts: nat, code: int)
  {
    ts < Pow10(TimestampWidth) && 0 <= code < Pow10(CodeWidth)
  }

  datatype Marker = Marker(timestamp: nat, code: nat)

  /**
    Reads back a marker name of the fixed layout: 16 digits, '_', 2 digits.
    Any other text is not a marker name.
  */
  function ParseMarker(name: string): (m: Option<Marker>)
    ensures m.Some? ==> InRange(m.value.timestamp, m.value.code)
  {
    if |name| == NameLength && name[TimestampWidth] == '_'
       && AllDigits(name[..TimestampWidth]) && AllDigits(name[TimestampWidth + 1..])
    then
      DigitsBound(name[..TimestampWidth]);
      DigitsBound(name[TimestampWidth + 1..]);
      Some(Marker(DigitsValue(name[..TimestampWidth]), DigitsValue(name[TimestampWidth + 1..])))
    else
      None
  }

  /** Lexicographic order on strings, character by character, as names sort in a listing. */
  predicate LexLess(a: string, b: string)
  {
    if a == [] then b != []
    else if b == [] then false
    else a[0] < b[0] || (a[0] == b[0] && LexLess(a[1..], b[1..]))
  }

  // ---------------------------------------------------------------------------
  // Decimal digit strings

  lemma {:induction false} DigitsBound(s: string)
    requires AllDigits(s)
    ensures DigitsValue(s) < Pow10(|s|)
  {
    if s != [] {
      DigitsBound(s[..|s| - 1]);
    }
  }

  /** `Decimal` and `DigitsValue` are inverse. */
  lemma {:induction false} DecimalValue(n: nat)
    ensures DigitsValue(Decimal(n)) == n
    decreases n
  {
    if n >= 10 {
      DecimalValue(n / 10);
      var s := Decimal(n);
      assert s[..|s| - 1] == Decimal(n / 10);
    }
  }

  /** The shortest decimal text of `n` fits `w` characters exactly when `n < 10^w`. */
  lemma {:induction false} DecimalLength(n: nat, w: nat)
    requires w >= 1
    ensures |Decimal(n)| <= w <==> n < Pow10(w)
    decreases n
  {
    if n < 10 {
      if w > 1 {
        assert Pow10(w) == 10 * Pow10(w - 1);
      }
    } else if w > 1 {
      DecimalLength(n / 10, w - 1);
      assert n / 10 < Pow10(w - 1) <==> n < 10 * Pow10(w - 1);
    }
  }

  lemma {:induction false} ZerosValue(z: string)
    requires forall i :: 0 <= i < |z| ==> z[i] == '0'
    ensures AllDigits(z) && DigitsValue(z) == 0
  {
    if z != [] {
      ZerosValue(z[..|z| - 1]);
    }
  }

  lemma {:induction false} LeadingZerosValue(z: string, s: string)
    requires forall i :: 0 <= i < |z| ==> z[i] == '0'
    requires AllDigits(s)
    ensures AllDigits(z + s) && DigitsValue(z + s) == DigitsValue(s)
    decreases |s|
  {
    if s == [] {
      assert z + s == z;
      ZerosValue(z);
    } else {
      LeadingZerosValue(z, s[..|s| - 1]);
      assert (z + s)[..|z + s| - 1] == z + s[..|s| - 1];
    }
  }

  /** Zero padding keeps a number's value: the field holds all of its digits. */
  lemma PaddedDecimal(n: nat, w: nat)
    ensures AllDigits(PadLeft(Decimal(n), w, '0'))
    ensures DigitsValue(PadLeft(Decimal(n), w, '0')) == n
  {
    var s := Decimal(n);
    var p := PadLeft(s, w, '0');
    var z := p[..|p| - |s|];
    assert p == z + s;
    LeadingZerosValue(z, s);
    DecimalValue(n);
  }

  /** Two digit strings of one length with one value are the same string. */
  lemma {:induction false} DigitsInjective(a: string, b: string)
    requires AllDigits(a) && AllDigits(b) && |a| == |b|
    requires DigitsValue(a) == DigitsValue(b)
    ensures a == b
    decreases |a|
  {
    if a != [] {
      var n := |a| - 1;
      assert DigitOf(a[n]) == DigitOf(b[n]);
      DigitsInjective(a[..n], b[..n]);
      assert a == a[..n] + [a[n]];
      assert b == b[..n] + [b[n]];
    }
  }

  lemma TimesTen(d: nat, p: nat)
    ensures d * (10 * p) == 10 * (d * p)
  {
  }

  /** The value of a digit string, read from its leading digit. */
  lemma {:induction false} DigitsFront(s: string)
    requires AllDigits(s) && s != []
    ensures DigitsValue(s) == DigitOf(s[0]) * Pow10(|s| - 1) + DigitsValue(s[1..])
    decreases |s|
  {
    if |s| > 1 {
      var t, u := s[..|s| - 1], s[1..];
      var d, p := DigitOf(s[0]), Pow10(|s| - 2);
      var last := DigitOf(s[|s| - 1]);
      DigitsFront(t);
      assert t[0] == s[0];
      assert u[..|u| - 1] == t[1..];
      assert DigitsValue(t) == d * p + DigitsValue(t[1..]);
      assert DigitsValue(u) == 10 * DigitsValue(t[1..]) + last;
      assert DigitsValue(s) == 10 * DigitsValue(t) + last;
      TimesTen(d, p);
    }
  }

  lemma {:induction false} LeadingDigitDominates(x: nat, y: nat, p: nat, r: nat, q: nat)
    requires x < y && r < p
    ensures x * p + r < y * p + q
    decreases y - x
  {
    assert (x + 1) * p == x * p + p;
    if x + 1 < y {
      LeadingDigitDominates(x + 1, y, p, 0, q);
    }
  }

  /** On digit strings of one length, lexicographic order is numeric order. */
  lemma {:induction false} LexDigits(a: string, b: string)
    requires AllDigits(a) && AllDigits(b) && |a| == |b|
    ensures LexLess(a, b) <==> DigitsValue(a) < DigitsValue(b)
    decreases |a|
  {
    if a != [] {
      DigitsFront(a);
      DigitsFront(b);
      DigitsBound(a[1..]);
      DigitsBound(b[1..]);
      LexDigits(a[1..], b[1..]);
      var p := Pow10(|a| - 1);
      var x, y := DigitOf(a[0]), DigitOf(b[0]);
      if x < y {
        LeadingDigitDominates(x, y, p, DigitsValue(a[1..]), DigitsValue(b[1..]));
      } else if y < x {
        LeadingDigitDominates(y, x, p, DigitsValue(b[1..]), DigitsValue(a[1..]));
      }
    }
  }

  /** Comparing two strings that share a prefix length compares the prefixes first. */
  lemma {:induction false} LexConcat(a1: string, r1: string, a2: string, r2: string)
    requires |a1| == |a2|
    ensures LexLess(a1 + r1, a2 + r2) <==> LexLess(a1, a2) || (a1 == a2 && LexLess(r1, r2))
    decreases |a1|
  {
    if a1 == [] {
      assert a1 + r1 == r1 && a2 + r2 == r2;
    } else {
      LexConcat(a1[1..], r1, a2[1..], r2);
      assert (a1 + r1)[1..] == a1[1..] + r1;
      assert (a2 + r2)[1..] == a2[1..] + r2;
      assert a1 == [a1[0]] + a1[1..] && a2 == [a2[0]] + a2[1..];
    }
  }

  // ---------------------------------------------------------------------------
  // Properties of marker names

  /** The fields hold timestamps below 10^16 and codes below 100. */
  lemma FieldLimits()
    ensures Pow10(TimestampWidth) == 10_000_000_000_000_000 < U64Limit
    ensures Pow10(CodeWidth) == 100
  {
    assert Pow10(16) == 10_000_000_000_000_000;
    assert Pow10(2) == 100;
  }

  /** A name is its timestamp field, '_' and its code field, in that order. */
  lemma NameFields(ts: Micros, code: int)
    ensures var name, a, b := FormatMarker(ts, code), TimestampText(ts), CodeText(code);
            && name == a + "_" + b
            && |name| == |a| + 1 + |b|
            && name[..|a|] == a
            && name[|a|] == '_'
            && name[|a| + 1..] == b
  {
    var name, a, b := FormatMarker(ts, code), TimestampText(ts), CodeText(code);
    assert name[..|a|] == a;
    assert name[|a| + 1..] == b;
  }

  /** The fields of in-range inputs are exactly 16 and 2 digits holding the inputs. */
  lemma InRangeFields(ts: Micros, code: int)
    requires InRange(ts, code)
    ensures |TimestampText(ts)| == TimestampWidth && AllDigits(TimestampText(ts))
    ensures DigitsValue(TimestampText(ts)) == ts
    ensures |CodeText(code)| == CodeWidth && AllDigits(CodeText(code))
    ensures DigitsValue(CodeText(code)) == code
  {
    DecimalLength(ts, TimestampWidth);
    DecimalLength(code, CodeWidth);
    PaddedDecimal(ts, TimestampWidth);
    PaddedDecimal(code, CodeWidth);
  }

  /**
    Whatever the inputs (the code non-negative), the name is the timestamp's
    digits in a field of at least 16, '_', and the code's digits in a field of
    at least 2: no digit of either number is lost.
  */
  lemma MarkerLayout(ts: Micros, code: int)
    requires code >= 0
    ensures var name := FormatMarker(ts, code);
            var w := Max(TimestampWidth, |Decimal(ts)|);
            && |name| == w + 1 + Max(CodeWidth, |Decimal(code)|)
            && name[w] == '_'
            && AllDigits(name[..w]) && DigitsValue(name[..w]) == ts
            && AllDigits(name[w + 1..]) && DigitsValue(name[w + 1..]) == code
  {
    var a, b := TimestampText(ts), CodeText(code);
    assert b == PadLeft(Decimal(code), CodeWidth, '0') by {
      assert IntText(code) == Decimal(code);
    }
    PaddedField(ts, TimestampWidth);
    PaddedField(code, CodeWidth);
    NameFields(ts, code);
  }

  /** A number's zero-padded field: as wide as the larger of its digits and the width, all digits, its value. */
  lemma PaddedField(n: nat, w: nat)
    ensures var f := PadLeft(Decimal(n), w, '0');
            |f| == Max(w, |Decimal(n)|) && AllDigits(f) && DigitsValue(f) == n
  {
    PaddedDecimal(n, w);
  }

  /** In range, a name is exactly 19 characters: digits, with '_' at index 16. */
  lemma InRangeShape(ts: Micros, code: int)
    requires InRange(ts, code)
    ensures var name := FormatMarker(ts, code);
            && |name| == NameLength
            && name[TimestampWidth] == '_'
            && forall i :: 0 <= i < NameLength && i != TimestampWidth ==> IsDigit(name[i])
  {
    var name, a, b := FormatMarker(ts, code), TimestampText(ts), CodeText(code);
    InRangeFields(ts, code);
    NameFields(ts, code);
    DigitsAround(name, a, b);
  }

  /** A text made of a digit string, '_' and a digit string has digits everywhere but at the '_'. */
  lemma DigitsAround(name: string, a: string, b: string)
    requires name == a + "_" + b && AllDigits(a) && AllDigits(b)
    ensures forall i :: 0 <= i < |name| && i != |a| ==> IsDigit(name[i])
  {
    forall i | 0 <= i < |name| && i != |a|
      ensures IsDigit(name[i])
    {
      if i < |a| {
        assert name[i] == a[i];
      } else {
        assert name[i] == b[i - |a| - 1];
      }
    }
  }

  /** A timestamp of more than 16 digits or a code of more than 2 lengthens the name. */
  lemma OutOfRangeLonger(ts: Micros, code: int)
    requires code >= 0 && !InRange(ts, code)
    ensures |FormatMarker(ts, code)| > NameLength
  {
    DecimalLength(ts, TimestampWidth);
    DecimalLength(code, CodeWidth);
  }

  /** The example given with the status directory flag: time 0 and code 0. */
  lemma WorkedExample()
    ensures FormatMarker(0, 0) == "0000000000000000_00"
  {
    assert Decimal(0) == "0";
    assert TimestampText(0) == "0000000000000000";
    assert CodeText(0) == "00";
  }

  /** Reading back the name of in-range inputs gives those inputs. */
  lemma ParseFormat(ts: Micros, code: int)
    requires InRange(ts, code)
    ensures ParseMarker(FormatMarker(ts, code)) == Some(Marker(ts, code))
  {
    InRangeFields(ts, code);
    NameFields(ts, code);
  }

  /** Two digit fields of widths 16 and 2 joined by '_' are the name of their values. */
  lemma FieldsFormat(a: string, b: string, ts: Micros, code: int)
    requires AllDigits(a) && AllDigits(b) && |a| == TimestampWidth && |b| == CodeWidth
    requires ts == DigitsValue(a) && code == DigitsValue(b)
    ensures FormatMarker(ts, code) == a + "_" + b
  {
    FieldLimits();
    DigitsBound(a);
    DigitsBound(b);
    InRangeFields(ts, code);
    NameFields(ts, code);
    DigitsInjective(TimestampText(ts), a);
    DigitsInjective(CodeText(code), b);
  }

  lemma SplitAt(s: string, k: nat)
    requires k < |s|
    ensures s == s[..k] + [s[k]] + s[k + 1..]
  {
  }

  /** What `ParseMarker` accepts: two digit fields around '_' at index 16. */
  lemma ParsedFields(name: string)
    requires ParseMarker(name).Some?
    ensures |name| == NameLength && name[TimestampWidth] == '_'
    ensures AllDigits(name[..TimestampWidth]) && AllDigits(name[TimestampWidth + 1..])
    ensures var m := ParseMarker(name).value;
            && m.timestamp == DigitsValue(name[..TimestampWidth])
            && m.code == DigitsValue(name[TimestampWidth + 1..])
  {
  }

  /** Every text that reads as a marker is the name of what it reads as. */
  lemma FormatParse(name: string)
    requires ParseMarker(name).Some?
    ensures var m := ParseMarker(name).value;
            m.timestamp < U64Limit && FormatMarker(m.timestamp, m.code) == name
  {
    var m := ParseMarker(name).value;
    var a, b := name[..TimestampWidth], name[TimestampWidth + 1..];
    FieldLimits();
    ParsedFields(name);
    FieldsFormat(a, b, m.timestamp, m.code);
    SplitAt(name, TimestampWidth);
  }

  lemma LexAfterSeparator(b1: string, b2: string)
    ensures LexLess("_" + b1, "_" + b2) <==> LexLess(b1, b2)
  {
    assert ("_" + b1)[1..] == b1 && ("_" + b2)[1..] == b2;
  }

  /**
    Names built of equally wide digit fields sort by the first field's value,
    then by the second's.
  */
  lemma FieldOrder(a1: string, b1: string, a2: string, b2: string)
    requires AllDigits(a1) && AllDigits(a2) && AllDigits(b1) && AllDigits(b2)
    requires |a1| == |a2| && |b1| == |b2|
    ensures LexLess(a1 + "_" + b1, a2 + "_" + b2)
            <==> || DigitsValue(a1) < DigitsValue(a2)
                 || (DigitsValue(a1) == DigitsValue(a2) && DigitsValue(b1) < DigitsValue(b2))
  {
    assert a1 + "_" + b1 == a1 + ("_" + b1);
    assert a2 + "_" + b2 == a2 + ("_" + b2);
    LexConcat(a1, "_" + b1, a2, "_" + b2);
    LexAfterSeparator(b1, b2);
    LexDigits(a1, a2);
    LexDigits(b1, b2);
    if DigitsValue(a1) == DigitsValue(a2) {
      DigitsInjective(a1, a2);
    }
  }

  /**
    In range, names sort as their (timestamp, code) pairs do, so the marker of a
    later status change sorts after the marker of an earlier one.
  */
  lemma MarkerOrder(ts1: Micros, code1: int, ts2: Micros, code2: int)
    requires InRange(ts1, code1) && InRange(ts2, code2)
    ensures LexLess(FormatMarker(ts1, code1), FormatMarker(ts2, code2))
            <==> ts1 < ts2 || (ts1 == ts2 && code1 < code2)
  {
    InRangeFields(ts1, code1);
    InRangeFields(ts2, code2);
    NameFields(ts1, code1);
    NameFields(ts2, code2);
    FieldOrder(TimestampText(ts1), CodeText(code1), TimestampText(ts2), CodeText(code2));
  }

  /**
    Distinct status changes (non-negative codes) get distinct names, in range
    or not: two markers coincide only when both time and code do.
  */
  lemma MarkerNameInjective(ts1: Micros, code1: int, ts2: Micros, code2: int)
    requires code1 >= 0 && code2 >= 0
    requires FormatMarker(ts1, code1) == FormatMarker(ts2, code2)
    ensures ts1 == ts2 && code1 == code2
  {
    var name := FormatMarker(ts1, code1);
    var w1, w2 := Max(TimestampWidth, |Decimal(ts1)|), Max(TimestampWidth, |Decimal(ts2)|);
    MarkerLayout(ts1, code1);
    MarkerLayout(ts2, code2);
    SeparatorUnique(name, w1, w2);
  }

  /** In a text whose leading digits run up to a '_', that '_' is the first one. */
  lemma SeparatorUnique(name: string, w1: nat, w2: nat)
    requires w1 < |name| && w2 < |name|
    requires name[w1] == '_' && name[w2] == '_'
    requires AllDigits(name[..w1]) && AllDigits(name[..w2])
    ensures w1 == w2
  {
    assert forall i :: 0 <= i < w1 ==> name[..w1][i] == name[i];
    assert forall i :: 0 <= i < w2 ==> name[..w2][i] == name[i];
  }
}
