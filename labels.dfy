/** The count-label parser `yt_label_to_num`: a character scan that collects
    digits and dots, skips commas, and stops at a magnitude letter or any other
    character, followed by a decimal conversion and a truncation to an integer.
    The decimal value is computed exactly (a mantissa over a power of ten)
    rather than in floating point. */
module Labels {

  datatype Option<T> = None | Some(value: T)

  /** The outcome of `yt_label_to_num`: `None` for a missing label, a
      non-negative count, or the `ValueError` that `float()` raises when
      the collected text holds more than one dot. */
  datatype NumOutcome = NoneLabel | Num(n: nat) | FloatError

  /** Python's `str.lower` on one character, as far as the scan can observe
      it: ASCII capitals, and the KELVIN SIGN U+212A, which lowers to 'k'.
      Every other character whose lower case differs is neither a digit,
      a dot, a comma nor a magnitude letter before and after lowering. */
  function Lower(c: char): (l: char)
    ensures IsDigit(l) <==> IsDigit(c)
    ensures 'A' <= c <= 'Z' ==> l as int == c as int + 32
  {
    if 'A' <= c <= 'Z' then (c as int + 32) as char
    else if c == '\U{212A}' then 'k'
    else c
  }

  function LowerAll(s: string): (r: string)
    ensures |r| == |s|
    ensures forall i :: 0 <= i < |s| ==> r[i] == Lower(s[i])
  {
    if s == [] then [] else [Lower(s[0])] + LowerAll(s[1..])
  }

  predicate IsDigit(c: char) { '0' <= c <= '9' }

  predicate IsMagnitude(c: char) { c == 'k' || c == 'm' || c == 'b' }

  /** A character at which the scan keeps going. */
  predicate Continues(c: char) { IsDigit(c) || c == '.' || c == ',' }

  function Multiplier(c: char): nat
    requires IsMagnitude(c)
  {
    if c == 'k' then 1000 else if c == 'm' then 1000000 else 1000000000
  }

  /** What the scan over a label reads: the digits and dots it collects (in
      order, without the leading '0' the source starts from) and the
      multiplier it ends with. */
  datatype Scan = Scan(collected: string, multiplier: nat)

  function ScanLabel(s: string): Scan
  {
    if s == [] then Scan("", 1)
    else
      var c := Lower(s[0]);
      if IsDigit(c) || c == '.' then
        var r := ScanLabel(s[1..]);
        Scan([c] + r.collected, r.multiplier)
      else if IsMagnitude(c) then Scan("", Multiplier(c))
      else if c == ',' then ScanLabel(s[1..])
      else Scan("", 1)
  }

  /** An exact decimal: mantissa / 10^scale. */
  datatype Decimal = Decimal(mantissa: nat, scale: nat)

  function Pow10(n: nat): (p: nat)
    ensures p >= 1
  {
    if n == 0 then 1 else 10 * Pow10(n - 1)
  }

  function DigitValue(c: char): nat
    requires IsDigit(c)
  {
    c as int - '0' as int
  }

  predicate AllDigits(s: string) { forall i :: 0 <= i < |s| ==> IsDigit(s[i]) }

  predicate DigitsAndDots(s: string) { forall i :: 0 <= i < |s| ==> IsDigit(s[i]) || s[i] == '.' }

  /** `int(x * multiplier)` for a non-negative exact decimal x: truncation
      toward zero, which for a non-negative value is the floor. */
  function Truncate(d: Decimal, multiplier: nat): nat
  {
    DivPow10(d.mantissa * multiplier, d.scale)
  }

  /** x / 10^n, rounding down, one decimal digit at a time. */
  function DivPow10(x: nat, n: nat): nat
  {
    if n == 0 then x else DivPow10(x / 10, n - 1)
  }

  /** The number a string of decimal digits denotes. */
  function DigitsValue(s: string): nat
    requires AllDigits(s)
  {
    if s == [] then 0 else 10 * DigitsValue(s[..|s| - 1]) + DigitValue(s[|s| - 1])
  }

  function CountDots(s: string): nat
  {
    if s == [] then 0 else (if s[0] == '.' then 1 else 0) + CountDots(s[1..])
  }

  /** Python's `float()` on a string of digits and dots: the exact value, or
      `None` where `float()` raises (two or more dots). */
  function ParseDecimal(s: string): (d: Option<Decimal>)
    requires DigitsAndDots(s)
  {
    if CountDots(s) > 1 then None
    else
      var k := DotIndex(s);
      var digits := s[..k] + (if k < |s| then s[k + 1..] else "");
      assert AllDigits(digits) by { DotIndexSplit(s); }
      Some(Decimal(DigitsValue(digits), if k < |s| then |s| - k - 1 else 0))
  }

  /** The index of the first dot, or |s| when there is none. */
  function DotIndex(s: string): (k: nat)
    ensures k <= |s|
    ensures forall i :: 0 <= i < k ==> s[i] != '.'
    ensures k < |s| ==> s[k] == '.'
  {
    if s == [] then 0 else if s[0] == '.' then 0 else 1 + DotIndex(s[1..])
  }

  lemma {:induction false} CountDotsSplit(s: string, k: nat)
    requires k <= |s|
    ensures CountDots(s) == CountDots(s[..k]) + CountDots(s[k..])
  {
    if k > 0 {
      CountDotsSplit(s[1..], k - 1);
      assert s[1..][..k - 1] == s[1..k];
      assert s[..k][1..] == s[1..k];
      assert s[1..][k - 1..] == s[k..];
    } else {
      assert s[..0] == "";
      assert s[0..] == s;
    }
  }

  lemma {:induction false} NoDotsCount(s: string)
    requires forall i :: 0 <= i < |s| ==> s[i] != '.'
    ensures CountDots(s) == 0
  {
    if s != [] { NoDotsCount(s[1..]); }
  }

  lemma {:induction false} DotsZeroMeansNone(s: string)
    requires CountDots(s) == 0
    ensures forall i :: 0 <= i < |s| ==> s[i] != '.'
  {
    if s != [] {
      DotsZeroMeansNone(s[1..]);
      assert forall i :: 1 <= i < |s| ==> s[i] == s[1..][i - 1];
    }
  }

  /** With at most one dot, removing the first dot leaves only digits. */
  lemma DotIndexSplit(s: string)
    requires DigitsAndDots(s)
    requires CountDots(s) <= 1
    ensures AllDigits(s[..DotIndex(s)])
    ensures DotIndex(s) < |s| ==> AllDigits(s[DotIndex(s) + 1..])
  {
    var k := DotIndex(s);
    if k < |s| {
      CountDotsSplit(s, k + 1);
      NoDotsCount(s[..k]);
      CountDotsSplit(s[..k + 1], k);
      assert s[..k + 1][..k] == s[..k];
      assert s[..k + 1][k..] == [s[k]];
      assert CountDots([s[k]]) == 1;
      DotsZeroMeansNone(s[k + 1..]);
    }
  }

  /** The spec of `yt_label_to_num` (scraping.py:60-82): scan the lowered
      label, prepend '0', convert exactly, multiply, truncate. */
  function LabelValue(text: Option<string>): (r: NumOutcome)
    ensures text.None? <==> r.NoneLabel?
  {
    match text
    case None => NoneLabel
    case Some(s) =>
      var sc := ScanLabel(s);
      ScanCollectsDigitsAndDots(s);
      match ParseDecimal("0" + sc.collected)
      case None => FloatError
      case Some(d) => Num(Truncate(d, sc.multiplier))
  }

  lemma {:induction false} ScanCollectsDigitsAndDots(s: string)
    ensures DigitsAndDots(ScanLabel(s).collected)
    ensures DigitsAndDots("0" + ScanLabel(s).collected)
  {
    if s != [] { ScanCollectsDigitsAndDots(s[1..]); }
  }

  /** The scan from position i on, unfolded once. */
  lemma ScanStep(s: string, i: nat)
    requires i < |s|
    ensures var c := Lower(s[i]);
      ScanLabel(s[i..]) ==
        if IsDigit(c) || c == '.' then Scan([c] + ScanLabel(s[i + 1..]).collected, ScanLabel(s[i + 1..]).multiplier)
        else if IsMagnitude(c) then Scan("", Multiplier(c))
        else if c == ',' then ScanLabel(s[i + 1..])
        else Scan("", 1)
  {
    assert s[i..][0] == s[i] && s[i..][1..] == s[i + 1..];
  }

  /** `yt_label_to_num` as the source writes it: a character loop that
      updates `num_str` and `multiplier`, then `int(float(num_str) * multiplier)`. */
  method LabelToNum(text: Option<string>) returns (r: NumOutcome)
    ensures r == LabelValue(text)
  {
    if text.None? {
      return NoneLabel;
    }
    var s := text.value;
    var numStr := "0";
    var multiplier := 1;
    ghost var pre := "";
    var i := 0;
    while i < |s|
      invariant 0 <= i <= |s|
      invariant numStr == "0" + pre && multiplier == 1
      invariant ScanLabel(s) == Scan(pre + ScanLabel(s[i..]).collected, ScanLabel(s[i..]).multiplier)
    {
      var c := Lower(s[i]);
      ScanStep(s, i);
      if IsDigit(c) || c == '.' {
        assert pre + ([c] + ScanLabel(s[i + 1..]).collected) == (pre + [c]) + ScanLabel(s[i + 1..]).collected;
        numStr := numStr + [c];
        pre := pre + [c];
      } else if IsMagnitude(c) {
        if c == 'k' {
          multiplier := 1000;
        } else if c == 'm' {
          multiplier := 1000000;
        }
        if c == 'b' {
          multiplier := 1000000000;
        }
        assert pre + "" == pre;
        break;
      } else if c == ',' {
      } else {
        assert pre + "" == pre;
        break;
      }
      i := i + 1;
    }
    if i == |s| {
      assert s[|s|..] == "" && pre + "" == pre;
    }
    assert ScanLabel(s) == Scan(pre, multiplier);
    ScanCollectsDigitsAndDots(s);
    var d := ParseDecimal(numStr);
    if d.None? {
      r := FloatError;
    } else {
      r := Num(Truncate(d.value, multiplier));
    }
  }

  // ---------------------------------------------------------------------
  // Properties of the parser

  lemma {:induction false} LowerIdempotent(c: char)
    ensures Lower(Lower(c)) == Lower(c)
  {
  }

  lemma {:induction false} ScanIgnoresCase(s: string)
    ensures ScanLabel(LowerAll(s)) == ScanLabel(s)
  {
    if s != [] {
      LowerIdempotent(s[0]);
      assert LowerAll(s)[1..] == LowerAll(s[1..]);
      ScanIgnoresCase(s[1..]);
    }
  }

  /** Scanning is case-insensitive. */
  lemma LabelIgnoresCase(s: string)
    ensures LabelValue(Some(LowerAll(s))) == LabelValue(Some(s))
  {
    ScanIgnoresCase(s);
  }

  /** A comma anywhere in the scanned part of the label is skipped. */
  lemma {:induction false} CommaSkipped(p: string, q: string)
    requires forall i :: 0 <= i < |p| ==> Continues(Lower(p[i]))
    ensures ScanLabel(p + "," + q) == ScanLabel(p + q)
  {
    if p == [] {
      assert (p + "," + q)[1..] == q;
      assert p + q == q;
    } else {
      assert (p + "," + q)[0] == p[0] && (p + q)[0] == p[0];
      assert (p + "," + q)[1..] == p[1..] + "," + q;
      assert (p + q)[1..] == p[1..] + q;
      CommaSkipped(p[1..], q);
    }
  }

  /** A label that starts with a character at which the scan stops (neither
      a digit, a dot nor a comma) reads as 0, e.g. "views". */
  lemma NoLeadingDigitIsZero(s: string)
    requires s == [] || !Continues(Lower(s[0]))
    ensures LabelValue(Some(s)) == Num(0)
  {
    assert ScanLabel(s).collected == "";
    assert ParseDecimal("0") == Some(Decimal(0, 0)) by {
      assert DotIndex("0") == 1;
      assert "0"[..1] == "0";
      assert DigitsValue("0") == 0 by { assert "0"[..0] == ""; }
    }
  }

  /** Digits followed by a stopping character: the scan reads exactly the digits. */
  lemma {:induction false} ScanDigitsThen(ds: string, rest: string)
    requires AllDigits(ds)
    ensures ScanLabel(ds + rest) == Scan(ds + ScanLabel(rest).collected, ScanLabel(rest).multiplier)
  {
    if ds != [] {
      assert (ds + rest)[0] == ds[0];
      assert (ds + rest)[1..] == ds[1..] + rest;
      assert Lower(ds[0]) == ds[0];
      ScanDigitsThen(ds[1..], rest);
      assert [ds[0]] + (ds[1..] + ScanLabel(rest).collected) == ds + ScanLabel(rest).collected;
    } else {
      assert ds + rest == rest;
      assert ds + ScanLabel(rest).collected == ScanLabel(rest).collected;
    }
  }

  lemma {:induction false} DigitsValueAppend(ds: string, c: char)
    requires AllDigits(ds) && IsDigit(c)
    ensures DigitsValue(ds + [c]) == 10 * DigitsValue(ds) + DigitValue(c)
  {
    assert (ds + [c])[..|ds + [c]| - 1] == ds;
  }

  lemma {:induction false} DigitsValueConcat(a: string, b: string)
    requires AllDigits(a) && AllDigits(b)
    ensures DigitsValue(a + b) == DigitsValue(a) * Pow10(|b|) + DigitsValue(b)
    decreases |b|
  {
    if b == [] {
      assert a + b == a;
    } else {
      var b' := b[..|b| - 1];
      var c := b[|b| - 1];
      assert a + b == (a + b') + [c];
      assert b == b' + [c];
      DigitsValueConcat(a, b');
      DigitsValueAppend(a + b', c);
      DigitsValueAppend(b', c);
      var x, p := DigitsValue(a), Pow10(|b'|);
      assert Pow10(|b|) == 10 * p;
      MulTen(x, p);
    }
  }

  lemma MulTen(x: nat, p: nat)
    ensures 10 * (x * p) == x * (10 * p)
  {
  }

  lemma LeadingZero(ds: string)
    requires AllDigits(ds)
    ensures DigitsValue("0" + ds) == DigitsValue(ds)
  {
    DigitsValueConcat("0", ds);
    assert DigitsValue("0") == 0 by { assert "0"[..0] == ""; }
  }

  /** A mantissa of digits `ws`, an optional fraction `fs`: the decimal that
      `float("0" + ws + "." + fs)` denotes. */
  lemma ParseFraction(ws: string, fs: string)
    requires AllDigits(ws) && AllDigits(fs)
    ensures ParseDecimal("0" + ws + "." + fs) == Some(Decimal(DigitsValue(ws + fs), |fs|))
  {
    var s := "0" + ws + "." + fs;
    var k := |ws| + 1;
    assert s[..k] == "0" + ws;
    assert s[k] == '.';
    assert s[k + 1..] == fs;
    assert forall i :: 0 <= i < k ==> s[i] != '.' by {
      assert forall i :: 0 <= i < k ==> s[i] == ("0" + ws)[i];
    }
    DotIndexIs(s, k);
    NoDotsCount(s[..k]);
    NoDotsCount(fs);
    CountDotsSplit(s, k);
    assert s[k..] == "." + fs;
    assert ("." + fs)[1..] == fs;
    assert AllDigits("0" + ws);
    DigitsValueConcat("0" + ws, fs);
    DigitsValueConcat(ws, fs);
    LeadingZero(ws);
    calc {
      DigitsValue(s[..k] + s[k + 1..]);
      DigitsValue(("0" + ws) + fs);
      DigitsValue("0" + ws) * Pow10(|fs|) + DigitsValue(fs);
      DigitsValue(ws) * Pow10(|fs|) + DigitsValue(fs);
      DigitsValue(ws + fs);
    }
  }

  lemma {:induction false} DotIndexIs(s: string, k: nat)
    requires k < |s| && s[k] == '.'
    requires forall i :: 0 <= i < k ==> s[i] != '.'
    ensures DotIndex(s) == k
  {
    if k > 0 {
      DotIndexIs(s[1..], k - 1);
    }
  }

  lemma ParseInteger(ws: string)
    requires AllDigits(ws)
    ensures ParseDecimal("0" + ws) == Some(Decimal(DigitsValue(ws), 0))
  {
    var s := "0" + ws;
    assert AllDigits(s);
    NoDotsCount(s);
    assert DotIndex(s) == |s|;
    assert s[..|s|] + "" == s;
    LeadingZero(ws);
  }

  /** Grouped digits then text: "1,234 views" reads as 1234. The digit
      groups `a` and `b` are joined across the comma. */
  lemma GroupedCount(a: string, b: string, rest: string)
    requires AllDigits(a) && AllDigits(b)
    requires rest == [] || (!Continues(Lower(rest[0])) && !IsMagnitude(Lower(rest[0])))
    ensures LabelValue(Some(a + "," + b + rest)) == Num(DigitsValue(a + b))
  {
    assert forall i :: 0 <= i < |a| ==> Continues(Lower(a[i]));
    CommaSkipped(a, b + rest);
    assert a + "," + b + rest == a + "," + (b + rest);
    assert AllDigits(a + b);
    assert a + (b + rest) == (a + b) + rest;
    ScanDigitsThen(a + b, rest);
    assert ScanLabel(rest) == Scan("", 1);
    assert (a + b) + "" == a + b;
    ParseInteger(a + b);
  }

  /** A magnitude letter after any run of digits, dots and commas ends the
      scan with its multiplier, whatever follows it. */
  lemma {:induction false} ScanThenMagnitude(p: string, c: char, rest: string)
    requires forall i :: 0 <= i < |p| ==> Continues(Lower(p[i]))
    requires IsMagnitude(Lower(c))
    ensures ScanLabel(p + [c] + rest) == Scan(ScanLabel(p).collected, Multiplier(Lower(c)))
  {
    if p == [] {
      assert p + [c] + rest == [c] + rest;
    } else {
      assert (p + [c] + rest)[0] == p[0];
      assert (p + [c] + rest)[1..] == p[1..] + [c] + rest;
      ScanThenMagnitude(p[1..], c, rest);
    }
  }

  /** Any other character after a run of digits, dots and commas ends the
      scan: nothing after it is read, and the multiplier stays 1, as in
      "2.5 views" or "1,234,567 views". */
  lemma {:induction false} ScanThenStop(p: string, c: char, rest: string)
    requires forall i :: 0 <= i < |p| ==> Continues(Lower(p[i]))
    requires !Continues(Lower(c)) && !IsMagnitude(Lower(c))
    ensures ScanLabel(p + [c] + rest) == ScanLabel(p)
    ensures ScanLabel(p).multiplier == 1
  {
    if p == [] {
      assert p + [c] + rest == [c] + rest;
    } else {
      assert (p + [c] + rest)[0] == p[0];
      assert (p + [c] + rest)[1..] == p[1..] + [c] + rest;
      ScanThenStop(p[1..], c, rest);
    }
  }

  /** So the label's value is the value of the part before that character. */
  lemma StopLabel(p: string, c: char, rest: string)
    requires forall i :: 0 <= i < |p| ==> Continues(Lower(p[i]))
    requires !Continues(Lower(c)) && !IsMagnitude(Lower(c))
    ensures LabelValue(Some(p + [c] + rest)) == LabelValue(Some(p))
  {
    ScanThenStop(p, c, rest);
  }

  /** A k/m/b letter (either case) after any run of digits, dots and commas
      multiplies the decimal read so far by 10^3/10^6/10^9 and truncates the
      product; what follows the letter is never read. Two dots before it
      still make `float()` raise. */
  lemma MagnitudeScales(p: string, c: char, rest: string)
    requires forall i :: 0 <= i < |p| ==> Continues(Lower(p[i]))
    requires IsMagnitude(Lower(c))
    ensures DigitsAndDots("0" + ScanLabel(p).collected)
    ensures LabelValue(Some(p + [c] + rest)) ==
      match ParseDecimal("0" + ScanLabel(p).collected)
      case None => FloatError
      case Some(d) => Num(Truncate(d, Multiplier(Lower(c))))
  {
    ScanCollectsDigitsAndDots(p);
    ScanThenMagnitude(p, c, rest);
  }

  /** Digits and a magnitude letter, as in "12K" or "3M views": the digits'
      value times the multiplier. */
  lemma MagnitudeInteger(ws: string, c: char, rest: string)
    requires AllDigits(ws)
    requires IsMagnitude(Lower(c))
    ensures LabelValue(Some(ws + [c] + rest)) == Num(DigitsValue(ws) * Multiplier(Lower(c)))
  {
    assert forall i :: 0 <= i < |ws| ==> Continues(Lower(ws[i]));
    MagnitudeScales(ws, c, rest);
    ScanDigitsThen(ws, "");
    assert ws + "" == ws;
    ParseInteger(ws);
  }

  /** A magnitude letter multiplies and ends the scan: digits `ws`, an
      optional fraction `fs` and a 'k', 'm' or 'b' (either case) give
      (ws.fs) * multiplier truncated toward zero, e.g. "1.5K" reads as 1500. */
  lemma MagnitudeLabel(ws: string, fs: string, c: char, rest: string)
    requires AllDigits(ws) && AllDigits(fs)
    requires IsMagnitude(Lower(c))
    ensures LabelValue(Some(ws + "." + fs + [c] + rest))
         == Num(Truncate(Decimal(DigitsValue(ws + fs), |fs|), Multiplier(Lower(c))))
  {
    var p := ws + "." + fs;
    FractionContinues(ws, fs);
    MagnitudeScales(p, c, rest);
    FractionScan(ws, fs);
    ParseFraction(ws, fs);
    assert "0" + p == "0" + ws + "." + fs;
  }

  /** Every character of ws.fs is one the scan continues over. */
  lemma FractionContinues(ws: string, fs: string)
    requires AllDigits(ws) && AllDigits(fs)
    ensures forall i :: 0 <= i < |ws + "." + fs| ==> Continues(Lower((ws + "." + fs)[i]))
  {
  }

  /** The scan of ws.fs collects all of it. */
  lemma FractionScan(ws: string, fs: string)
    requires AllDigits(ws) && AllDigits(fs)
    ensures ScanLabel(ws + "." + fs).collected == ws + "." + fs
  {
    ScanDotDigits(fs);
    ScanDigitsThen(ws, "." + fs);
    assert ws + "." + fs == ws + ("." + fs);
  }

  /** The scan of a dot and digits collects all of it. */
  lemma ScanDotDigits(fs: string)
    requires AllDigits(fs)
    ensures ScanLabel("." + fs) == Scan("." + fs, 1)
  {
    ScanAllDigits(fs);
    assert ("." + fs)[0] == '.' && ("." + fs)[1..] == fs;
  }

  /** The scan of a string of digits collects all of it. */
  lemma ScanAllDigits(ds: string)
    requires AllDigits(ds)
    ensures ScanLabel(ds) == Scan(ds, 1)
  {
    ScanDigitsThen(ds, "");
    assert ds + "" == ds;
  }

  /** Two dots in the scanned part make `float()` raise. */
  lemma TwoDotsRaise(s: string)
    requires CountDots(ScanLabel(s).collected) >= 2
    ensures LabelValue(Some(s)) == FloatError
  {
    var c := ScanLabel(s).collected;
    assert ("0" + c)[1..] == c;
  }

  /** "1,234 views" reads as 1234. */
  lemma ExampleGrouped()
    ensures LabelValue(Some("1,234 views")) == Num(1234)
  {
    assert "1" + "," + "234" + " views" == "1,234 views";
    assert DigitsValue("1" + "234") == 1234 by {
      assert "1" + "234" == "1234";
      assert "1234"[..3] == "123"; assert "123"[..2] == "12"; assert "12"[..1] == "1"; assert "1"[..0] == "";
    }
    GroupedCount("1", "234", " views");
  }

  /** "1.5K" reads as 1500. */
  lemma ExampleThousands()
    ensures LabelValue(Some("1.5K")) == Num(1500)
  {
    assert "1" + "." + "5" + ['K'] + "" == "1.5K";
    assert DigitsValue("1" + "5") == 15 by {
      assert "1" + "5" == "15";
      assert "15"[..1] == "1"; assert "1"[..0] == "";
    }
    assert Truncate(Decimal(15, 1), Multiplier(Lower('K'))) == 1500;
    MagnitudeLabel("1", "5", 'K', "");
  }

  /** "3M views" reads as 3000000. */
  lemma ExampleMillions()
    ensures LabelValue(Some("3M views")) == Num(3000000)
  {
    assert "3" + ['M'] + " views" == "3M views";
    assert DigitsValue("3") == 3 by { assert "3"[..0] == ""; }
    MagnitudeInteger("3", 'M', " views");
  }

  /** "views" reads as 0. */
  lemma ExampleNoDigits()
    ensures LabelValue(Some("views")) == Num(0)
  {
    NoLeadingDigitIsZero("views");
  }
}
