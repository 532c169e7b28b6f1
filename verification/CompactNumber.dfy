/** Compact decimals of the public benchmark record (benchmarks/benchmark_record.py).
    Every quantity is a whole number of thousandths, which is what three printed
    decimals carry. */
module CompactNumber {
  import opened Text

  // ---------------------------------------------------------------- compact numbers

  // str.rstrip of one character.
  function RStrip(s: string, c: char): string {
    if s != "" && s[|s| - 1] == c then RStrip(s[..|s| - 1], c) else s
  }

  function Sign(t: int): string { if t < 0 then "-" else "" }

  function Magnitude(t: int): nat { if t < 0 then -t else t }

  // The format `.3f`.
  function Fixed3(t: int): string {
    Sign(t) + Numeral(Magnitude(t) / 1000) + "." + Padded(Magnitude(t) % 1000, 3)
  }

  function Compact(value: Option<int>): string {
    match value
    case None => ""
    case Some(t) => RStrip(RStrip(Fixed3(t), '0'), '.')
  }

  // float() of a plain decimal with at most three fraction digits.
  function ReadNumber(s: string): Option<int> {
    var negative := s != "" && s[0] == '-';
    var magnitude := ReadMagnitude(if negative then s[1..] else s);
    match magnitude
    case None => None
    case Some(m) => var t: int := m; Some(if negative then -t else t)
  }

  function ReadMagnitude(body: string): Option<nat> {
    if '.' in body then
      var i := IndexOf(body, '.');
      FromParts(body[..i], body[i + 1..])
    else FromParts(body, "")
  }

  function FromParts(whole: string, fraction: string): Option<nat> {
    if whole == "" || !AllDigits(whole) || !AllDigits(fraction) || |fraction| > 3 then None
    else Some(ValueOf(whole) * 1000 + ValueOf(fraction + seq(3 - |fraction|, _ => '0')))
  }

  lemma StripLast(s: string, x: char, c: char)
    ensures RStrip(s + [x], c) == if x == c then RStrip(s, c) else s + [x]
  {
    assert (s + [x])[..|s|] == s;
  }

  lemma StripZeros(dot: string, a: char, b: char, c: char)
    requires dot != "" && dot[|dot| - 1] == '.'
    ensures RStrip(dot + [a] + [b] + [c], '0') ==
      if c != '0' then dot + [a] + [b] + [c]
      else if b != '0' then dot + [a] + [b]
      else if a != '0' then dot + [a]
      else dot
  {
    StripLast(dot + [a] + [b], c, '0');
    StripLast(dot + [a], b, '0');
    StripLast(dot, a, '0');
  }

  // The fraction as printed: three digits without their trailing zeros.
  function Trimmed(a: char, b: char, c: char): string {
    if c != '0' then [a] + [b] + [c] else if b != '0' then [a] + [b] else if a != '0' then [a] else ""
  }

  function Fraction(f: nat): string
    requires f < 1000
  {
    Trimmed(DigitChar(f / 100), DigitChar(f / 10 % 10), DigitChar(f % 10))
  }

  lemma PaddedDigits(f: nat)
    requires f < 1000
    ensures Padded(f, 3) == [DigitChar(f / 100), DigitChar(f / 10 % 10), DigitChar(f % 10)]
  {
    if f < 10 {
      assert Numeral(f) == [DigitChar(f)];
    } else if f < 100 {
      assert Numeral(f) == [DigitChar(f / 10)] + [DigitChar(f % 10)];
    } else {
      assert Numeral(f / 10) == [DigitChar(f / 100)] + [DigitChar(f / 10 % 10)];
      assert Numeral(f) == Numeral(f / 10) + [DigitChar(f % 10)];
    }
  }

  lemma StripFraction(head: string, a: char, b: char, c: char)
    requires head != "" && head[|head| - 1] != '.' && a != '.' && b != '.' && c != '.'
    ensures var fraction := Trimmed(a, b, c);
      RStrip(RStrip(head + "." + ([a] + [b] + [c]), '0'), '.')
        == if fraction == "" then head else head + "." + fraction
  {
    var dot := head + ".";
    assert dot + ([a] + [b] + [c]) == dot + [a] + [b] + [c];
    assert dot + ([a] + [b]) == dot + [a] + [b];
    StripZeros(dot, a, b, c);
    if Trimmed(a, b, c) == "" {
      StripLast(head, '.', '.');
    } else {
      StripDigits(dot, Trimmed(a, b, c));
    }
  }

  lemma StripDigits(dot: string, fraction: string)
    requires fraction != "" && fraction[|fraction| - 1] != '.'
    ensures RStrip(dot + fraction, '.') == dot + fraction
  {
  }

  lemma FractionValue(f: nat)
    requires f < 1000
    ensures AllDigits(Fraction(f)) && |Fraction(f)| <= 3
    ensures ValueOf(Fraction(f) + seq(3 - |Fraction(f)|, _ => '0')) == f
  {
    var padded := Fraction(f) + seq(3 - |Fraction(f)|, _ => '0');
    PaddedDigits(f);
    PaddedValue(f, 3);
    assert padded == Padded(f, 3) by {
      assert f % 10 == 0 && f % 100 != 0 ==> f / 10 % 10 != 0;
    }
  }

  // What is printed of a magnitude: whole part and, when there is one, the fraction.
  function Printed(m: nat): string {
    var whole, fraction := Numeral(m / 1000), Fraction(m % 1000);
    if fraction == "" then whole else whole + "." + fraction
  }

  lemma SignAssoc(sign: string, whole: string, fraction: string)
    ensures sign + (whole + "." + fraction) == sign + whole + "." + fraction
  {
  }

  lemma CompactShape(t: int)
    ensures Compact(Some(t)) == Sign(t) + Printed(Magnitude(t))
  {
    var m := Magnitude(t);
    var f := m % 1000;
    var head := Sign(t) + Numeral(m / 1000);
    assert head[|head| - 1] == Numeral(m / 1000)[|Numeral(m / 1000)| - 1];
    PaddedDigits(f);
    hide RStrip, Numeral, Padded;
    var a, b, c := DigitChar(f / 100), DigitChar(f / 10 % 10), DigitChar(f % 10);
    assert Padded(f, 3) == [a] + [b] + [c];
    StripFraction(head, a, b, c);
    SignAssoc(Sign(t), Numeral(m / 1000), Fraction(f));
  }

  // Reading a compacted value gives back exactly the value; nothing prints as absent.
  lemma CompactRoundTrip(t: int)
    ensures Compact(Some(t)) != "" && ReadNumber(Compact(Some(t))) == Some(t)
    ensures ',' !in Compact(Some(t))
  {
    CompactShape(t);
    PrintedValue(Magnitude(t));
    SignedValue(t, Printed(Magnitude(t)));
  }

  lemma SignedValue(t: int, body: string)
    requires body != "" && body[0] != '-' && ',' !in body
    requires ReadMagnitude(body) == Some(Magnitude(t))
    ensures ReadNumber(Sign(t) + body) == Some(t) && ',' !in Sign(t) + body
  {
    assert t < 0 ==> (Sign(t) + body)[1..] == body;
    assert t >= 0 ==> Sign(t) + body == body;
  }

  lemma PartsAreRead(whole: string, fraction: string)
    requires whole != "" && AllDigits(whole) && AllDigits(fraction)
    ensures var body := if fraction == "" then whole else whole + "." + fraction;
      && ReadMagnitude(body) == FromParts(whole, fraction)
      && body != "" && body[0] != '-' && ',' !in body
  {
    hide FromParts;
    if fraction != "" {
      var body := whole + ['.'] + fraction;
      IndexAfterPrefix(whole, '.', fraction);
      assert body[|whole|] == '.' && body[..|whole|] == whole && body[|whole| + 1..] == fraction;
    }
  }

  lemma PrintedValue(m: nat)
    ensures ReadMagnitude(Printed(m)) == Some(m)
    ensures Printed(m) != "" && Printed(m)[0] != '-' && ',' !in Printed(m)
  {
    hide ReadMagnitude, ValueOf, Fraction, Numeral;
    var whole, fraction := Numeral(m / 1000), Fraction(m % 1000);
    NumeralValue(m / 1000);
    FractionValue(m % 1000);
    PartsAreRead(whole, fraction);
    assert FromParts(whole, fraction) == Some(m / 1000 * 1000 + m % 1000);
  }
}
