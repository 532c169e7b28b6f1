/** Text primitives shared by the component models: decimal numerals, splitting
    and joining on a separator, and the code-point order Python uses to sort strings. */
module Text {

  datatype Option<+T> = None | Some(value: T)

  // ---------------------------------------------------------------- decimal numerals

  predicate IsDigit(c: char) { '0' <= c <= '9' }

  predicate AllDigits(s: string) { forall i :: 0 <= i < |s| ==> IsDigit(s[i]) }

  function DigitChar(d: nat): (c: char)
    requires d < 10
    ensures IsDigit(c) && c as int - '0' as int == d
  {
    ('0' as int + d) as char
  }

  function DigitValue(c: char): (d: nat)
    requires IsDigit(c)
    ensures d < 10
  {
    c as int - '0' as int
  }

  // The decimal numeral of n, without leading zeros.
  function Numeral(n: nat): (s: string)
    ensures |s| >= 1 && AllDigits(s)
    ensures |s| > 1 ==> s[0] != '0'
    ensures n > 0 ==> s[0] != '0'
    ensures s == "0" <==> n == 0
  {
    if n < 10 then [DigitChar(n)] else Numeral(n / 10) + [DigitChar(n % 10)]
  }

  // The number a string of digits denotes.
  function ValueOf(s: string): nat
    requires AllDigits(s)
  {
    if s == "" then 0 else ValueOf(s[..|s|-1]) * 10 + DigitValue(s[|s|-1])
  }

  lemma {:induction false} NumeralValue(n: nat)
    ensures ValueOf(Numeral(n)) == n
  {
    if n >= 10 {
      NumeralValue(n / 10);
      assert Numeral(n)[..|Numeral(n)|-1] == Numeral(n / 10);
    }
  }

  lemma {:induction false} ValueAfterZeros(zeros: nat, s: string)
    requires AllDigits(s)
    ensures AllDigits(seq(zeros, _ => '0') + s)
    ensures ValueOf(seq(zeros, _ => '0') + s) == ValueOf(s)
    decreases |s|, zeros
  {
    var t := seq(zeros, _ => '0') + s;
    if s != "" {
      ValueAfterZeros(zeros, s[..|s|-1]);
      assert t[..|t|-1] == seq(zeros, _ => '0') + s[..|s|-1];
    } else if zeros > 0 {
      ValueAfterZeros(zeros - 1, s);
      assert t[..|t|-1] == seq(zeros - 1, _ => '0') + s;
    }
  }

  // Zero-padded to at least `width` digits, like Python's `:0{width}d`.
  function Padded(n: nat, width: nat): (s: string)
    ensures AllDigits(s) && |s| >= 1
  {
    var digits := Numeral(n);
    if |digits| >= width then digits else seq(width - |digits|, _ => '0') + digits
  }

  lemma PaddedInjective(m: nat, n: nat, width: nat)
    requires Padded(m, width) == Padded(n, width)
    ensures m == n
  {
    PaddedValue(m, width);
    PaddedValue(n, width);
  }

  lemma PaddedValue(n: nat, width: nat)
    ensures ValueOf(Padded(n, width)) == n
  {
    NumeralValue(n);
    var digits := Numeral(n);
    if |digits| < width {
      ValueAfterZeros(width - |digits|, digits);
    }
  }

  // ---------------------------------------------------------------- join and split

  function Join(parts: seq<string>, sep: char): string {
    if |parts| == 0 then ""
    else if |parts| == 1 then parts[0]
    else parts[0] + [sep] + Join(parts[1..], sep)
  }

  // Python's str.split with an explicit one-character separator.
  function Split(s: string, sep: char): (parts: seq<string>)
    ensures |parts| >= 1
    ensures forall p :: p in parts ==> sep !in p
    decreases |s|
  {
    if sep !in s then [s]
    else
      var i := IndexOf(s, sep);
      [s[..i]] + Split(s[i+1..], sep)
  }

  function IndexOf(s: string, c: char): (i: nat)
    requires c in s
    ensures i < |s| && s[i] == c && c !in s[..i]
  {
    if s[0] == c then 0 else 1 + IndexOf(s[1..], c)
  }

  lemma IndexAfterPrefix(prefix: string, c: char, rest: string)
    requires c !in prefix
    ensures IndexOf(prefix + [c] + rest, c) == |prefix|
  {
    var s := prefix + [c] + rest;
    assert s[|prefix|] == c;
    assert forall k :: 0 <= k < |prefix| ==> s[k] == prefix[k];
    assert forall k :: |prefix| < k <= |s| ==> c in s[..k];
  }

  lemma {:induction false} SplitJoin(parts: seq<string>, sep: char)
    requires |parts| >= 1
    requires forall p :: p in parts ==> sep !in p
    ensures Split(Join(parts, sep), sep) == parts
  {
    if |parts| > 1 {
      var rest := Join(parts[1..], sep);
      var s := parts[0] + [sep] + rest;
      IndexAfterPrefix(parts[0], sep, rest);
      assert s[|parts[0]|] == sep;
      assert s[..|parts[0]|] == parts[0] && s[|parts[0]|+1..] == rest;
      SplitJoin(parts[1..], sep);
    }
  }

  // ---------------------------------------------------------------- code-point order

  predicate Leq(a: string, b: string) {
    if a == "" then true
    else if b == "" then false
    else if a[0] != b[0] then a[0] < b[0]
    else Leq(a[1..], b[1..])
  }

  predicate Less(a: string, b: string) { a != b && Leq(a, b) }

  lemma {:induction false} LeqTotal(a: string, b: string)
    ensures Leq(a, b) || Leq(b, a)
  {
    if a != "" && b != "" && a[0] == b[0] { LeqTotal(a[1..], b[1..]); }
  }

  lemma {:induction false} LeqAntisymmetric(a: string, b: string)
    requires Leq(a, b) && Leq(b, a)
    ensures a == b
  {
    if a != "" && b != "" {
      LeqAntisymmetric(a[1..], b[1..]);
      assert a == [a[0]] + a[1..] && b == [b[0]] + b[1..];
    }
  }

  lemma {:induction false} LeqTransitive(a: string, b: string, c: string)
    requires Leq(a, b) && Leq(b, c)
    ensures Leq(a, c)
  {
    if a != "" && b != "" && c != "" && a[0] == b[0] == c[0] {
      LeqTransitive(a[1..], b[1..], c[1..]);
    }
  }

  lemma {:induction false} LeqReflexive(a: string)
    ensures Leq(a, a)
  {
    if a != "" { LeqReflexive(a[1..]); }
  }

  lemma {:induction false} LeastExists(s: set<string>)
    requires s != {}
    ensures exists x :: x in s && forall y :: y in s ==> Leq(x, y)
  {
    var a :| a in s;
    LeqReflexive(a);
    if s != {a} {
      LeastExists(s - {a});
      var b :| b in s - {a} && forall y :: y in s - {a} ==> Leq(b, y);
      LeqTotal(a, b);
      if Leq(a, b) {
        forall y | y in s ensures Leq(a, y) {
          if y != a { LeqTransitive(a, b, y); }
        }
      } else {
        assert b in s && forall y :: y in s ==> Leq(b, y);
      }
    }
  }

  predicate StrictlySorted(s: seq<string>) {
    forall i, j :: 0 <= i < j < |s| ==> Less(s[i], s[j])
  }

  // Python's sorted() over a set of strings.
  method SortedSet(s: set<string>) returns (out: seq<string>)
    ensures StrictlySorted(out)
    ensures forall x :: x in out <==> x in s
  {
    out := [];
    var rest := s;
    while rest != {}
      invariant rest <= s
      invariant StrictlySorted(out)
      invariant forall x :: x in out <==> x in s - rest
      invariant forall x, y :: x in out && y in rest ==> Less(x, y)
      decreases rest
    {
      LeastExists(rest);
      var least :| least in rest && forall y :: y in rest ==> Leq(least, y);
      out := out + [least];
      rest := rest - {least};
    }
  }

  predicate Smallest(s: set<nat>, m: nat) { m in s && forall x :: x in s ==> m <= x }

  lemma SmallestExists(s: set<nat>, x: nat)
    requires x in s
    ensures exists m :: Smallest(s, m)
    decreases x
  {
    if y: nat :| y in s && y < x {
      SmallestExists(s, y);
    } else {
      assert Smallest(s, x);
    }
  }

  // Python's sorted() over a set of natural numbers.
  method Ascending(s: set<nat>) returns (out: seq<nat>)
    ensures forall i, j :: 0 <= i < j < |out| ==> out[i] < out[j]
    ensures forall x: nat :: x in out <==> x in s
  {
    out := [];
    var rest: set<nat> := s;
    while rest != {}
      invariant rest <= s
      invariant forall i, j :: 0 <= i < j < |out| ==> out[i] < out[j]
      invariant forall x: nat :: x in out <==> x in s - rest
      invariant forall x: nat, y: nat :: x in out && y in rest ==> x < y
      decreases rest
    {
      ghost var some :| some in rest;
      SmallestExists(rest, some);
      var m: nat :| m in rest && Smallest(rest, m);
      assert forall i :: 0 <= i < |out| ==> out[i] in out;
      out := out + [m];
      rest := rest - {m};
    }
  }
}
