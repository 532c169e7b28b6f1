/** The version key of the runtime catalog (tools/li_runtime_packs.py) against the
    precedence of section 11 of Semantic Versioning 2.0.0. */
module SemVer {
  import opened Text

  // ---------------------------------------------------------------- the key

  // An element of the key's prerelease tuple: (0, int) or (1, str).
  datatype Identifier = Numeric(n: nat) | Textual(s: string)

  datatype Pre = Release | Prerelease(ids: seq<Identifier>)

  datatype Key = Key(major: nat, minor: nat, patch: nat, pre: Pre)

  predicate InClass(c: char) {
    IsDigit(c) || 'a' <= c <= 'z' || 'A' <= c <= 'Z' || c == '-' || c == '.'
  }

  // [0-9A-Za-z.-]+
  predicate IsTail(s: string) { s != "" && forall i :: 0 <= i < |s| ==> InClass(s[i]) }

  // 0|[1-9][0-9]*
  predicate IsCoreNumber(s: string) { s != "" && AllDigits(s) && (|s| == 1 || s[0] != '0') }

  predicate IsDecimal(s: string) { s != "" && AllDigits(s) }

  function IdentifierOf(s: string): Identifier {
    if IsDecimal(s) then Numeric(ValueOf(s)) else Textual(s)
  }

  function Identifiers(parts: seq<string>): (ids: seq<Identifier>)
    ensures |ids| == |parts| && forall i :: 0 <= i < |ids| ==> ids[i] == IdentifierOf(parts[i])
  {
    seq(|parts|, i requires 0 <= i < |parts| => IdentifierOf(parts[i]))
  }

  function CutBefore(s: string, c: char): string { if c in s then s[..IndexOf(s, c)] else s }

  function CutAfter(s: string, c: char): Option<string> {
    if c in s then Some(s[IndexOf(s, c) + 1..]) else None
  }

  // The regular expression is deterministic: build metadata starts at the first '+',
  // the prerelease at the first '-' before it.
  function VersionKey(value: string): Option<Key> {
    var main, build := CutBefore(value, '+'), CutAfter(value, '+');
    var core, pre := Split(CutBefore(main, '-'), '.'), CutAfter(main, '-');
    if (build.Some? && !IsTail(build.value)) || (pre.Some? && !IsTail(pre.value)) then None
    else if |core| != 3 || !IsCoreNumber(core[0]) || !IsCoreNumber(core[1]) || !IsCoreNumber(core[2]) then None
    else Some(Key(ValueOf(core[0]), ValueOf(core[1]), ValueOf(core[2]),
                  if pre.None? then Release else Prerelease(Identifiers(Split(pre.value, '.')))))
  }

  // ---------------------------------------------------------------- tuple comparison

  // -1, 0 or 1 as the left side is smaller, equal or greater.
  function CompareNat(a: nat, b: nat): int { if a < b then -1 else if a == b then 0 else 1 }

  function CompareText(a: string, b: string): int { if a == b then 0 else if Leq(a, b) then -1 else 1 }

  function CompareIdentifier(a: Identifier, b: Identifier): int {
    match (a, b)
    case (Numeric(m), Numeric(n)) => CompareNat(m, n)
    case (Numeric(_), Textual(_)) => -1
    case (Textual(_), Numeric(_)) => 1
    case (Textual(s), Textual(t)) => CompareText(s, t)
  }

  // Tuples compare at their first difference; a proper prefix is smaller.
  function CompareIdentifiers(a: seq<Identifier>, b: seq<Identifier>): int {
    if a == [] && b == [] then 0
    else if a == [] then -1
    else if b == [] then 1
    else
      var c := CompareIdentifier(a[0], b[0]);
      if c != 0 then c else CompareIdentifiers(a[1..], b[1..])
  }

  // A release's tuple starts with 1, a prerelease's with 0.
  function ComparePre(a: Pre, b: Pre): int {
    match (a, b)
    case (Release, Release) => 0
    case (Release, Prerelease(_)) => 1
    case (Prerelease(_), Release) => -1
    case (Prerelease(x), Prerelease(y)) => CompareIdentifiers(x, y)
  }

  function CompareKeys(a: Key, b: Key): int {
    if a.major != b.major then CompareNat(a.major, b.major)
    else if a.minor != b.minor then CompareNat(a.minor, b.minor)
    else if a.patch != b.patch then CompareNat(a.patch, b.patch)
    else ComparePre(a.pre, b.pre)
  }

  // ---------------------------------------------------------------- a total preorder

  lemma CompareTextLaws(a: string, b: string, c: string)
    ensures CompareText(a, b) == -CompareText(b, a)
    ensures CompareText(a, b) <= 0 && CompareText(b, c) <= 0 ==> CompareText(a, c) <= 0
    ensures CompareText(a, b) == 0 <==> a == b
  {
    LeqTotal(a, b);
    if Leq(a, b) && Leq(b, a) { LeqAntisymmetric(a, b); }
    if Leq(a, b) && Leq(b, c) { LeqTransitive(a, b, c); }
  }

  lemma CompareIdentifierLaws(a: Identifier, b: Identifier, c: Identifier)
    ensures CompareIdentifier(a, b) == -CompareIdentifier(b, a)
    ensures CompareIdentifier(a, b) <= 0 && CompareIdentifier(b, c) <= 0 ==> CompareIdentifier(a, c) <= 0
    ensures CompareIdentifier(a, b) == 0 <==> a == b
  {
    if a.Textual? && b.Textual? && c.Textual? { CompareTextLaws(a.s, b.s, c.s); }
    else if a.Textual? && b.Textual? { CompareTextLaws(a.s, b.s, b.s); }
  }

  lemma {:induction false} CompareIdentifiersLaws(a: seq<Identifier>, b: seq<Identifier>, c: seq<Identifier>)
    ensures CompareIdentifiers(a, b) == -CompareIdentifiers(b, a)
    ensures CompareIdentifiers(a, b) <= 0 && CompareIdentifiers(b, c) <= 0 ==> CompareIdentifiers(a, c) <= 0
    ensures CompareIdentifiers(a, b) == 0 <==> a == b
  {
    hide CompareIdentifier;
    if a != [] && b != [] {
      var head := if c == [] then b[0] else c[0];
      CompareIdentifierLaws(a[0], b[0], head);
      CompareIdentifierLaws(b[0], a[0], head);
      CompareIdentifierLaws(a[0], head, b[0]);
      CompareIdentifierLaws(b[0], head, a[0]);
      CompareIdentifierLaws(head, b[0], a[0]);
      CompareIdentifiersLaws(a[1..], b[1..], if c == [] then [] else c[1..]);
      assert a == [a[0]] + a[1..] && b == [b[0]] + b[1..];
    }
  }

  lemma CompareKeysIsATotalPreorder(a: Key, b: Key, c: Key)
    ensures CompareKeys(a, b) <= 0 || CompareKeys(b, a) <= 0
    ensures CompareKeys(a, b) == -CompareKeys(b, a)
    ensures CompareKeys(a, b) <= 0 && CompareKeys(b, c) <= 0 ==> CompareKeys(a, c) <= 0
    ensures CompareKeys(a, b) == 0 <==> a == b
  {
    hide CompareIdentifiers;
    if a.pre.Prerelease? && b.pre.Prerelease? {
      CompareIdentifiersLaws(a.pre.ids, b.pre.ids, if c.pre.Prerelease? then c.pre.ids else []);
    }
  }

  // ---------------------------------------------------------------- section 11

  datatype Version = Version(major: nat, minor: nat, patch: nat, pre: seq<string>, build: Option<string>)

  // Section 9: identifiers are non-empty, alphanumeric or hyphen, and a numeric one has
  // no leading zero.
  predicate WellFormedIdentifier(s: string) {
    && s != ""
    && (forall i :: 0 <= i < |s| ==> InClass(s[i]) && s[i] != '.')
    && (AllDigits(s) ==> |s| == 1 || s[0] != '0')
  }

  predicate WellFormed(v: Version) {
    && (forall p :: p in v.pre ==> WellFormedIdentifier(p))
    && (v.build.Some? ==> IsTail(v.build.value))
  }

  function CoreText(v: Version): string {
    Join([Numeral(v.major), Numeral(v.minor), Numeral(v.patch)], '.')
  }

  function MainText(v: Version): string {
    if v.pre == [] then CoreText(v) else CoreText(v) + "-" + Join(v.pre, '.')
  }

  function VersionText(v: Version): string {
    if v.build.None? then MainText(v) else MainText(v) + "+" + v.build.value
  }

  // Section 11.4.1 to 11.4.3, on the identifiers themselves.
  predicate IdentifierBelow(x: string, y: string) {
    if IsDecimal(x) && IsDecimal(y) then ValueOf(x) < ValueOf(y)
    else if IsDecimal(x) then true
    else if IsDecimal(y) then false
    else Less(x, y)
  }

  // Section 11.4: compare left to right until a difference; a longer list wins a tie.
  predicate PrereleaseBelow(a: seq<string>, b: seq<string>) {
    exists i :: 0 <= i <= |a| && i <= |b| && a[..i] == b[..i]
      && ((i == |a| && i < |b|) || (i < |a| && i < |b| && IdentifierBelow(a[i], b[i])))
  }

  // Section 11.2 and 11.3.
  predicate Below(a: Version, b: Version) {
    a.major < b.major
    || (a.major == b.major && a.minor < b.minor)
    || (a.major == b.major && a.minor == b.minor && a.patch < b.patch)
    || (a.major == b.major && a.minor == b.minor && a.patch == b.patch
        && if b.pre == [] then a.pre != [] else a.pre != [] && PrereleaseBelow(a.pre, b.pre))
  }

  function KeyOf(v: Version): Key {
    Key(v.major, v.minor, v.patch, if v.pre == [] then Release else Prerelease(Identifiers(v.pre)))
  }

  // ---------------------------------------------------------------- parsing printed versions

  lemma CutAt(a: string, c: char, b: string)
    requires c !in a
    ensures CutBefore(a + [c] + b, c) == a && CutAfter(a + [c] + b, c) == Some(b)
    ensures CutBefore(a, c) == a && CutAfter(a, c) == None
  {
    var s := a + [c] + b;
    IndexAfterPrefix(a, c, b);
    assert s[|a|] == c && s[..|a|] == a && s[|a| + 1..] == b;
  }

  lemma {:induction false} JoinOver(parts: seq<string>, c: char)
    requires c != '.' && forall p :: p in parts ==> c !in p
    ensures c !in Join(parts, '.')
  {
    if |parts| > 1 {
      JoinOver(parts[1..], c);
    }
  }

  lemma {:induction false} JoinIsTail(parts: seq<string>)
    requires parts != [] && forall p :: p in parts ==> IsTail(p)
    ensures IsTail(Join(parts, '.'))
  {
    if |parts| > 1 {
      JoinIsTail(parts[1..]);
      assert parts[0] in parts && IsTail(parts[0]);
    } else {
      assert parts[0] in parts;
    }
  }

  lemma CoreParts(v: Version)
    ensures Split(CoreText(v), '.') == [Numeral(v.major), Numeral(v.minor), Numeral(v.patch)]
    ensures '-' !in CoreText(v) && '+' !in CoreText(v)
  {
    hide Split, Join, Numeral;
    var parts := [Numeral(v.major), Numeral(v.minor), Numeral(v.patch)];
    forall p, c | p in parts && !IsDigit(c) ensures c !in p {}
    SplitJoin(parts, '.');
    JoinOver(parts, '-');
    JoinOver(parts, '+');
  }

  lemma PreParts(pre: seq<string>)
    requires pre != [] && forall p :: p in pre ==> WellFormedIdentifier(p)
    ensures Split(Join(pre, '.'), '.') == pre && IsTail(Join(pre, '.')) && '+' !in Join(pre, '.')
  {
    hide Split, Join;
    forall p | p in pre ensures '.' !in p && '+' !in p && IsTail(p) {}
    SplitJoin(pre, '.');
    JoinOver(pre, '+');
    JoinIsTail(pre);
  }

  lemma MainParts(v: Version)
    requires WellFormed(v)
    ensures '+' !in MainText(v)
    ensures CutBefore(MainText(v), '-') == CoreText(v)
    ensures CutAfter(MainText(v), '-') == if v.pre == [] then None else Some(Join(v.pre, '.'))
    ensures v.pre != [] ==> IsTail(Join(v.pre, '.')) && Split(Join(v.pre, '.'), '.') == v.pre
  {
    hide Join, Split, IsTail, CutBefore, CutAfter;
    CoreParts(v);
    if v.pre != [] { PreParts(v.pre); }
    CutAt(CoreText(v), '-', Join(v.pre, '.'));
  }

  lemma VersionParts(v: Version)
    requires WellFormed(v)
    ensures CutBefore(VersionText(v), '+') == MainText(v)
    ensures CutAfter(VersionText(v), '+') == v.build
  {
    hide MainText, CutBefore, CutAfter;
    MainParts(v);
    CutAt(MainText(v), '+', if v.build.Some? then v.build.value else "");
  }

  // The key of a printed version is the version without its build metadata.
  lemma KeyOfText(v: Version)
    requires WellFormed(v)
    ensures VersionKey(VersionText(v)) == Some(KeyOf(v))
  {
    hide VersionText, MainText, CoreText, CutBefore, CutAfter, Split, Join, IsTail, Numeral, ValueOf;
    VersionParts(v);
    MainParts(v);
    CoreParts(v);
    NumeralValue(v.major);
    NumeralValue(v.minor);
    NumeralValue(v.patch);
  }

  // ---------------------------------------------------------------- agreement

  lemma IdentifierAgrees(x: string, y: string)
    requires WellFormedIdentifier(x) && WellFormedIdentifier(y)
    ensures CompareIdentifier(IdentifierOf(x), IdentifierOf(y)) < 0 <==> IdentifierBelow(x, y)
    ensures CompareIdentifier(IdentifierOf(x), IdentifierOf(y)) == 0 <==> x == y
  {
    if IsDecimal(x) && IsDecimal(y) {
      if ValueOf(x) == ValueOf(y) { NumeralUnique(x); NumeralUnique(y); }
    } else if !IsDecimal(x) && !IsDecimal(y) {
      CompareTextLaws(x, y, y);
    }
  }

  // A numeral without a leading zero is the numeral of its value.
  lemma {:induction false} NumeralUnique(s: string)
    requires IsCoreNumber(s)
    ensures Numeral(ValueOf(s)) == s
  {
    if |s| > 1 {
      var front, last := s[..|s| - 1], s[|s| - 1];
      NumeralUnique(front);
      PositiveValue(front);
      assert ValueOf(s) == ValueOf(front) * 10 + DigitValue(last);
      assert ValueOf(s) / 10 == ValueOf(front) && ValueOf(s) % 10 == DigitValue(last);
      assert s == front + [last];
    } else {
      assert s[..0] == "";
      assert ValueOf(s) == DigitValue(s[0]);
    }
  }

  lemma {:induction false} PositiveValue(s: string)
    requires AllDigits(s) && s != "" && s[0] != '0'
    ensures ValueOf(s) > 0
  {
    if |s| > 1 { PositiveValue(s[..|s| - 1]); }
  }

  lemma {:induction false} PrereleaseAgrees(a: seq<string>, b: seq<string>)
    requires forall p :: p in a || p in b ==> WellFormedIdentifier(p)
    ensures CompareIdentifiers(Identifiers(a), Identifiers(b)) < 0 <==> PrereleaseBelow(a, b)
    ensures CompareIdentifiers(Identifiers(a), Identifiers(b)) == 0 <==> a == b
    decreases |a|
  {
    hide WellFormedIdentifier, CompareIdentifier, IdentifierBelow, IdentifierOf;
    if a == [] {
      assert b != [] ==> a[..0] == b[..0];
    } else if b != [] {
      IdentifierAgrees(a[0], b[0]);
      PrereleaseAgrees(a[1..], b[1..]);
      assert Identifiers(a)[1..] == Identifiers(a[1..]) && Identifiers(b)[1..] == Identifiers(b[1..]);
      assert a == [a[0]] + a[1..] && b == [b[0]] + b[1..];
      PrereleaseStep(a, b);
    }
  }

  lemma PrereleaseStep(a: seq<string>, b: seq<string>)
    requires a != [] && b != []
    requires a[0] == b[0] ==> !IdentifierBelow(a[0], b[0])
    ensures PrereleaseBelow(a, b) <==>
      IdentifierBelow(a[0], b[0]) || (a[0] == b[0] && PrereleaseBelow(a[1..], b[1..]))
  {
    hide IdentifierBelow;
    if PrereleaseBelow(a, b) {
      var i :| 0 <= i <= |a| && i <= |b| && a[..i] == b[..i]
        && ((i == |a| && i < |b|) || (i < |a| && i < |b| && IdentifierBelow(a[i], b[i])));
      if i > 0 {
        assert a[0] == a[..i][0] == b[..i][0] == b[0];
        assert a[1..][..i - 1] == a[..i][1..] == b[..i][1..] == b[1..][..i - 1];
      }
    }
    if IdentifierBelow(a[0], b[0]) {
      assert a[..0] == b[..0];
    } else if a[0] == b[0] && PrereleaseBelow(a[1..], b[1..]) {
      var x, y := a[1..], b[1..];
      var i :| 0 <= i <= |x| && i <= |y| && x[..i] == y[..i]
        && ((i == |x| && i < |y|) || (i < |x| && i < |y| && IdentifierBelow(x[i], y[i])));
      assert a[..i + 1] == [a[0]] + x[..i] == [b[0]] + y[..i] == b[..i + 1];
    }
  }

  // On well-formed versions the key order is exactly the precedence of section 11, and
  // ties are exactly the versions that differ in build metadata alone.
  lemma KeysFollowPrecedence(a: Version, b: Version)
    requires WellFormed(a) && WellFormed(b)
    ensures VersionKey(VersionText(a)).Some? && VersionKey(VersionText(b)).Some?
    ensures var c := CompareKeys(VersionKey(VersionText(a)).value, VersionKey(VersionText(b)).value);
      && (c < 0 <==> Below(a, b))
      && (c > 0 <==> Below(b, a))
      && (c == 0 <==> a.(build := b.build) == b)
  {
    hide VersionText, VersionKey, PrereleaseBelow, CompareIdentifiers, Identifiers;
    KeyOfText(a);
    KeyOfText(b);
    PrereleaseAgrees(a.pre, b.pre);
    PrereleaseAgrees(b.pre, a.pre);
    CompareKeysIsATotalPreorder(KeyOf(a), KeyOf(b), KeyOf(b));
  }

  // Outside section 9 the key still orders versions but can tie different ones: leading
  // zeros of a numeric identifier disappear.
  lemma LeadingZerosTie(zeros: nat, digits: string)
    requires IsDecimal(digits)
    ensures IdentifierOf(seq(zeros, _ => '0') + digits) == IdentifierOf(digits)
    ensures zeros > 0 && digits[0] != '0' ==> !WellFormedIdentifier(seq(zeros, _ => '0') + digits)
  {
    ValueAfterZeros(zeros, digits);
  }
}
