/** The dependency-free JSON printer of the Linux installation probe
    (installer/src/li_installer_linux_provider.rs), and an independent reader for
    the grammar of sections 2 to 7 of RFC 8259 that recovers what was printed. */
module Json {
  import opened Text

  // A BTreeMap is its entries in key order; the results below hold for any entry list.
  datatype Value =
    | Null
    | Bool(flag: bool)
    | Number(n: nat)
    | Str(text: string)
    | Array(items: seq<Value>)
    | Object(entries: seq<Entry>)

  datatype Entry = Entry(key: string, value: Value)

  // ---------------------------------------------------------------- printing

  // Unicode category Cc, as Rust's char::is_control.
  predicate IsControl(c: char) {
    c as int < 0x20 || 0x7F <= c as int <= 0x9F
  }

  function HexDigit(d: nat): (c: char)
    requires d < 16
  {
    if d < 10 then ('0' as int + d) as char else ('a' as int + d - 10) as char
  }

  function Hex4(n: nat): (s: string)
    requires n < 0x10000
    ensures |s| == 4
  {
    [HexDigit(n / 0x1000), HexDigit(n / 0x100 % 16), HexDigit(n / 0x10 % 16), HexDigit(n % 16)]
  }

  function EscapeChar(c: char): (s: string)
    ensures s != ""
  {
    if c == '\"' then "\\\""
    else if c == '\\' then "\\\\"
    else if c == '\n' then "\\n"
    else if c == '\r' then "\\r"
    else if c == '\t' then "\\t"
    else if IsControl(c) then "\\u" + Hex4(c as int)
    else [c]
  }

  function Escape(s: string): string {
    if s == "" then "" else EscapeChar(s[0]) + Escape(s[1..])
  }

  lemma {:induction false} EscapeAppend(s: string, c: char)
    ensures Escape(s + [c]) == Escape(s) + EscapeChar(c)
  {
    if s != "" {
      EscapeAppend(s[1..], c);
      assert (s + [c])[1..] == s[1..] + [c];
    } else {
      assert (s + [c])[1..] == "";
    }
  }

  method JsonEscape(value: string) returns (output: string)
    ensures output == Escape(value)
    ensures SafeBody(output, false)
  {
    output := "";
    for i := 0 to |value|
      invariant output == Escape(value[..i])
    {
      EscapeAppend(value[..i], value[i]);
      assert value[..i+1] == value[..i] + [value[i]];
      output := output + EscapeChar(value[i]);
    }
    assert value[..|value|] == value;
    EscapeIsSafe(value);
  }

  // What a lexer needs of a string body: outside an escape pair it meets neither a
  // quote nor a control character, and the body does not end inside a pair.
  predicate SafeBody(t: string, escaped: bool) {
    if t == "" then !escaped
    else if escaped then !IsControl(t[0]) && SafeBody(t[1..], false)
    else if t[0] == '\\' then SafeBody(t[1..], true)
    else t[0] != '\"' && !IsControl(t[0]) && SafeBody(t[1..], false)
  }

  lemma {:induction false} EscapeIsSafe(s: string)
    ensures SafeBody(Escape(s), false)
  {
    if s != "" {
      EscapeIsSafe(s[1..]);
      SafeAfterToken(s[0], Escape(s[1..]));
    }
  }

  lemma SafeAfterToken(c: char, rest: string)
    requires SafeBody(rest, false)
    ensures SafeBody(EscapeChar(c) + rest, false)
  {
    var t := EscapeChar(c) + rest;
    if |EscapeChar(c)| == 1 {
      assert t[1..] == rest;
    } else if |EscapeChar(c)| == 2 {
      assert t[1..][1..] == rest;
    } else {
      var h := Hex4(c as int);
      SafePlain(h[3], rest);
      SafePlain(h[2], [h[3]] + rest);
      SafePlain(h[1], [h[2]] + ([h[3]] + rest));
      SafePlain(h[0], [h[1]] + ([h[2]] + ([h[3]] + rest)));
      assert t[1..][1..] == [h[0]] + ([h[1]] + ([h[2]] + ([h[3]] + rest)));
    }
  }

  lemma SafePlain(c: char, rest: string)
    requires c != '\"' && c != '\\' && !IsControl(c) && SafeBody(rest, false)
    ensures SafeBody([c] + rest, false)
  {
    assert ([c] + rest)[1..] == rest;
  }

  function Indent(depth: nat): (s: string)
    ensures forall i :: 0 <= i < |s| ==> s[i] == ' '
  {
    if depth == 0 then "" else "  " + Indent(depth - 1)
  }

  function Render(v: Value, depth: nat): string
    decreases v, 1
  {
    match v
    case Null => "null"
    case Bool(flag) => if flag then "true" else "false"
    case Number(n) => Numeral(n)
    case Str(text) => Quoted(text)
    case Array(items) =>
      if items == [] then "[]"
      else "[\n" + RenderItems(items, depth + 1) + "\n" + Indent(depth) + "]"
    case Object(entries) =>
      if entries == [] then "{}"
      else "{\n" + RenderEntries(entries, depth + 1) + "\n" + Indent(depth) + "}"
  }

  function Quoted(text: string): string { "\"" + Escape(text) + "\"" }

  function RenderItems(items: seq<Value>, depth: nat): string
    requires items != []
    decreases items, 0
  {
    var row := Indent(depth) + Render(items[0], depth);
    if |items| == 1 then row else row + ",\n" + RenderItems(items[1..], depth)
  }

  function RenderEntries(entries: seq<Entry>, depth: nat): string
    requires entries != []
    decreases entries, 0
  {
    var e := entries[0];
    var row := Indent(depth) + Quoted(e.key) + ": " + Render(e.value, depth);
    if |entries| == 1 then row else row + ",\n" + RenderEntries(entries[1..], depth)
  }

  // ---------------------------------------------------------------- reading (RFC 8259)

  // Parsed documents; a number keeps its lexeme, since the grammar also has signs,
  // fractions and exponents.
  datatype Doc =
    | DNull
    | DBool(flag: bool)
    | DNumber(lexeme: string)
    | DStr(text: string)
    | DArray(items: seq<Doc>)
    | DObject(members: seq<Member>)

  datatype Member = Member(key: string, value: Doc)

  datatype Parsed<+T> = Fail | Ok(value: T, rest: string)

  predicate IsWs(c: char) { c == ' ' || c == '\t' || c == '\n' || c == '\r' }

  function SkipWs(s: string): (r: string)
    ensures |r| <= |s|
    ensures r != "" ==> !IsWs(r[0])
  {
    if s != "" && IsWs(s[0]) then SkipWs(s[1..]) else s
  }

  function HexValue(c: char): (d: Option<nat>)
    ensures d.Some? ==> d.value < 16
  {
    if '0' <= c <= '9' then Some(c as int - '0' as int)
    else if 'a' <= c <= 'f' then Some(c as int - 'a' as int + 10)
    else if 'A' <= c <= 'F' then Some(c as int - 'A' as int + 10)
    else None
  }

  function ReadHex4(s: string): (n: Option<nat>)
    ensures n.Some? ==> |s| >= 4 && n.value < 0x10000
  {
    if |s| < 4 then None
    else
      var a, b, c, d := HexValue(s[0]), HexValue(s[1]), HexValue(s[2]), HexValue(s[3]);
      if a.None? || b.None? || c.None? || d.None? then None
      else Some(a.value * 0x1000 + b.value * 0x100 + c.value * 0x10 + d.value)
  }

  // One character of a string body: an unescaped character or an escape sequence.
  function ReadChar(s: string): (r: Parsed<char>)
    ensures r.Ok? ==> |r.rest| < |s|
  {
    if s == "" || s[0] == '\"' || s[0] as int < 0x20 then Fail
    else if s[0] != '\\' then Ok(s[0], s[1..])
    else if |s| < 2 then Fail
    else match s[1]
      case '\"' => Ok('\"', s[2..])
      case '\\' => Ok('\\', s[2..])
      case '/' => Ok('/', s[2..])
      case 'b' => Ok(8 as char, s[2..])
      case 'f' => Ok(12 as char, s[2..])
      case 'n' => Ok('\n', s[2..])
      case 'r' => Ok('\r', s[2..])
      case 't' => Ok('\t', s[2..])
      case 'u' => ReadUnicode(s[2..])
      case _ => Fail
  }

  // The hexadecimal part of a \u escape; a surrogate pair spans two of them.
  function ReadUnicode(s: string): (r: Parsed<char>)
    ensures r.Ok? ==> |r.rest| < |s|
  {
    var high := ReadHex4(s);
    if high.None? then Fail
    else if high.value < 0xD800 || 0xE000 <= high.value then Ok(high.value as char, s[4..])
    else if high.value >= 0xDC00 || |s| < 6 || s[4] != '\\' || s[5] != 'u' then Fail
    else
      var low := ReadHex4(s[6..]);
      if low.None? || !(0xDC00 <= low.value < 0xE000) then Fail
      else Ok((0x10000 + (high.value - 0xD800) * 0x400 + (low.value - 0xDC00)) as char, s[10..])
  }

  // The rest of a string after its opening quote.
  function ReadString(s: string): (r: Parsed<string>)
    ensures r.Ok? ==> |r.rest| < |s|
    decreases |s|
  {
    if s != "" && s[0] == '\"' then Ok("", s[1..])
    else match ReadChar(s)
      case Fail => Fail
      case Ok(c, rest) =>
        match ReadString(rest)
        case Fail => Fail
        case Ok(text, rest') => Ok([c] + text, rest')
  }

  function DigitRun(s: string): (n: nat)
    ensures n <= |s|
    ensures AllDigits(s[..n])
    ensures n < |s| ==> !IsDigit(s[n])
  {
    if s == "" || !IsDigit(s[0]) then 0 else 1 + DigitRun(s[1..])
  }

  // number = [ minus ] int [ frac ] [ exp ], as the length of the longest match.
  function NumberLength(s: string): (n: Option<nat>)
    ensures n.Some? ==> 0 < n.value <= |s|
  {
    var sign := if s != "" && s[0] == '-' then 1 else 0;
    var whole := DigitRun(s[sign..]);
    if whole == 0 || (whole > 1 && s[sign] == '0') then None
    else
      var fraction := FractionLength(s[sign + whole..]);
      Some(sign + whole + fraction + ExponentLength(s[sign + whole + fraction..]))
  }

  function FractionLength(s: string): (n: nat)
    ensures n <= |s|
  {
    if s != "" && s[0] == '.' && DigitRun(s[1..]) > 0 then 1 + DigitRun(s[1..]) else 0
  }

  function ExponentLength(s: string): (n: nat)
    ensures n <= |s|
  {
    if s == "" || (s[0] != 'e' && s[0] != 'E') then 0
    else
      var sign := if |s| > 1 && (s[1] == '+' || s[1] == '-') then 1 else 0;
      var digits := DigitRun(s[1 + sign..]);
      if digits == 0 then 0 else 1 + sign + digits
  }

  function ReadNumber(s: string): (r: Parsed<Doc>)
    ensures r.Ok? ==> |r.rest| < |s|
  {
    var n := NumberLength(s);
    if n.None? then Fail else Ok(DNumber(s[..n.value]), s[n.value..])
  }

  function ReadLiteral(s: string, word: string, meaning: Doc): (r: Parsed<Doc>)
    requires word != ""
    ensures r.Ok? ==> |r.rest| < |s|
  {
    if word <= s then Ok(meaning, s[|word|..]) else Fail
  }

  function ReadValue(s: string): (r: Parsed<Doc>)
    ensures r.Ok? ==> |r.rest| < |s|
    decreases |s|, 1
  {
    if s == "" then Fail
    else if s[0] == 'n' then ReadLiteral(s, "null", DNull)
    else if s[0] == 't' then ReadLiteral(s, "true", DBool(true))
    else if s[0] == 'f' then ReadLiteral(s, "false", DBool(false))
    else if s[0] == '\"' then
      match ReadString(s[1..]) {
        case Fail => Fail
        case Ok(text, rest) => Ok(DStr(text), rest)
      }
    else if s[0] == '[' then ReadArray(SkipWs(s[1..]))
    else if s[0] == '{' then ReadObject(SkipWs(s[1..]))
    else ReadNumber(s)
  }

  function ReadArray(body: string): (r: Parsed<Doc>)
    ensures r.Ok? ==> |r.rest| < |body|
    decreases |body|, 3
  {
    if body != "" && body[0] == ']' then Ok(DArray([]), body[1..])
    else match ReadItems(body)
      case Fail => Fail
      case Ok(items, rest) => Ok(DArray(items), rest)
  }

  function ReadObject(body: string): (r: Parsed<Doc>)
    ensures r.Ok? ==> |r.rest| < |body|
    decreases |body|, 3
  {
    if body != "" && body[0] == '}' then Ok(DObject([]), body[1..])
    else match ReadMembers(body)
      case Fail => Fail
      case Ok(members, rest) => Ok(DObject(members), rest)
  }

  // value *( value-separator value ) end-array
  function ReadItems(s: string): (r: Parsed<seq<Doc>>)
    ensures r.Ok? ==> |r.rest| < |s|
    decreases |s|, 2
  {
    match ReadValue(s)
    case Fail => Fail
    case Ok(item, rest) =>
      var next := SkipWs(rest);
      if next == "" then Fail
      else if next[0] == ']' then Ok([item], next[1..])
      else if next[0] != ',' then Fail
      else match ReadItems(SkipWs(next[1..]))
        case Fail => Fail
        case Ok(items, rest') => Ok([item] + items, rest')
  }

  // string name-separator value *( value-separator member ) end-object
  function ReadMembers(s: string): (r: Parsed<seq<Member>>)
    ensures r.Ok? ==> |r.rest| < |s|
    decreases |s|, 2
  {
    if s == "" || s[0] != '\"' then Fail
    else match ReadString(s[1..])
      case Fail => Fail
      case Ok(key, afterKey) =>
        var colon := SkipWs(afterKey);
        if colon == "" || colon[0] != ':' then Fail
        else match ReadValue(SkipWs(colon[1..]))
          case Fail => Fail
          case Ok(value, rest) =>
            var next := SkipWs(rest);
            if next == "" then Fail
            else if next[0] == '}' then Ok([Member(key, value)], next[1..])
            else if next[0] != ',' then Fail
            else match ReadMembers(SkipWs(next[1..]))
              case Fail => Fail
              case Ok(members, rest') => Ok([Member(key, value)] + members, rest')
  }

  // JSON-text = ws value ws
  function ReadText(s: string): Option<Doc> {
    match ReadValue(SkipWs(s))
    case Fail => None
    case Ok(doc, rest) => if SkipWs(rest) == "" then Some(doc) else None
  }

  // ---------------------------------------------------------------- the round trip

  // What the printed value means as a document.
  function Meaning(v: Value): Doc
    decreases v, 1
  {
    match v
    case Null => DNull
    case Bool(flag) => DBool(flag)
    case Number(n) => DNumber(Numeral(n))
    case Str(text) => DStr(text)
    case Array(items) => DArray(ItemMeanings(items))
    case Object(entries) => DObject(EntryMeanings(entries))
  }

  function ItemMeanings(items: seq<Value>): seq<Doc>
    decreases items, 0
  {
    if items == [] then [] else [Meaning(items[0])] + ItemMeanings(items[1..])
  }

  function EntryMeanings(entries: seq<Entry>): seq<Member>
    decreases entries, 0
  {
    if entries == [] then []
    else [Member(entries[0].key, Meaning(entries[0].value))] + EntryMeanings(entries[1..])
  }

  // Text after which a number cannot continue.
  predicate Delimited(rest: string) {
    rest == "" || rest[0] == ',' || rest[0] == '\n' || rest[0] == ']' || rest[0] == '}'
  }

  lemma HexDigitRoundTrip(d: nat)
    requires d < 16
    ensures HexValue(HexDigit(d)) == Some(d)
  {
  }

  lemma HexParts(n: nat)
    requires n < 0x10000
    ensures n / 0x1000 * 0x1000 + n / 0x100 % 16 * 0x100 + n / 0x10 % 16 * 0x10 + n % 16 == n
  {
    assert n / 0x100 / 16 == n / 0x1000;
    assert n / 0x10 / 16 == n / 0x100;
  }

  lemma HexRoundTrip(n: nat, rest: string)
    requires n < 0x10000
    ensures ReadHex4(Hex4(n) + rest) == Some(n)
  {
    HexDigitRoundTrip(n / 0x1000);
    HexDigitRoundTrip(n / 0x100 % 16);
    HexDigitRoundTrip(n / 0x10 % 16);
    HexDigitRoundTrip(n % 16);
    HexParts(n);
  }

  lemma CharRoundTrip(c: char, rest: string)
    ensures ReadChar(EscapeChar(c) + rest) == Ok(c, rest)
    ensures (EscapeChar(c) + rest)[0] != '\"'
  {
    var s := EscapeChar(c) + rest;
    if |EscapeChar(c)| == 1 {
      assert s[1..] == rest;
    } else if |EscapeChar(c)| == 2 {
      assert s[2..] == rest;
    } else {
      HexRoundTrip(c as int, rest);
      assert s[2..] == Hex4(c as int) + rest;
      assert s[2..][4..] == rest;
    }
  }

  lemma Assoc(a: string, b: string, c: string, d: string)
    ensures (a + b) + c + d == a + (b + c + d)
  {
  }

  lemma {:induction false} StringRoundTrip(text: string, rest: string)
    ensures ReadString(Escape(text) + "\"" + rest) == Ok(text, rest)
  {
    var s := Escape(text) + "\"" + rest;
    if text == "" {
      assert s[1..] == rest;
    } else {
      var tail := Escape(text[1..]) + "\"" + rest;
      Assoc(EscapeChar(text[0]), Escape(text[1..]), "\"", rest);
      CharRoundTrip(text[0], tail);
      StringRoundTrip(text[1..], rest);
      assert [text[0]] + text[1..] == text;
    }
  }

  lemma QuotedRoundTrip(text: string, rest: string)
    ensures ReadString((Quoted(text) + rest)[1..]) == Ok(text, rest)
    ensures (Quoted(text) + rest)[0] == '\"'
  {
    assert (Quoted(text) + rest)[1..] == Escape(text) + "\"" + rest;
    StringRoundTrip(text, rest);
  }

  lemma {:induction false} RunOfDigits(digits: string, rest: string)
    requires AllDigits(digits)
    requires rest == "" || !IsDigit(rest[0])
    ensures DigitRun(digits + rest) == |digits|
  {
    if digits == "" {
      assert digits + rest == rest;
    } else {
      assert (digits + rest)[1..] == digits[1..] + rest;
      RunOfDigits(digits[1..], rest);
    }
  }

  lemma NumberRoundTrip(n: nat, rest: string)
    requires Delimited(rest)
    ensures ReadValue(Numeral(n) + rest) == Ok(DNumber(Numeral(n)), rest)
  {
    DigitsAreANumber(Numeral(n), rest);
    assert (Numeral(n) + rest)[0] == Numeral(n)[0];
  }

  lemma DigitsAreANumber(digits: string, rest: string)
    requires AllDigits(digits) && digits != "" && (|digits| == 1 || digits[0] != '0')
    requires Delimited(rest)
    ensures ReadNumber(digits + rest) == Ok(DNumber(digits), rest)
  {
    var s := digits + rest;
    assert s[0..] == s && s[|digits|..] == rest && s[..|digits|] == digits;
    assert rest[0..] == rest;
    RunOfDigits(digits, rest);
  }

  lemma {:induction false} SkipIndent(depth: nat, rest: string)
    requires rest != "" && !IsWs(rest[0])
    ensures SkipWs(Indent(depth) + rest) == rest
  {
    var s := Indent(depth) + rest;
    if depth == 0 {
      assert s == rest;
    } else {
      SkipIndent(depth - 1, rest);
      assert s[1..][1..] == Indent(depth - 1) + rest;
    }
  }

  lemma SkipLine(depth: nat, rest: string)
    requires rest != "" && !IsWs(rest[0])
    ensures SkipWs("\n" + Indent(depth) + rest) == rest
  {
    SkipIndent(depth, rest);
    assert ("\n" + Indent(depth) + rest)[1..] == Indent(depth) + rest;
  }

  lemma RenderStart(v: Value, depth: nat)
    ensures Render(v, depth) != ""
    ensures !IsWs(Render(v, depth)[0]) && Render(v, depth)[0] != ']' && Render(v, depth)[0] != '}'
  {
  }

  lemma {:induction false} ValueRoundTrip(v: Value, depth: nat, rest: string)
    requires Delimited(rest)
    ensures ReadValue(Render(v, depth) + rest) == Ok(Meaning(v), rest)
    decreases v, 1
  {
    var s := Render(v, depth) + rest;
    match v
    case Null => assert s[4..] == rest && s[..4] == "null";
    case Bool(flag) => assert s[if flag then 4 else 5..] == rest;
    case Number(n) => NumberRoundTrip(n, rest);
    case Str(text) => QuotedRoundTrip(text, rest);
    case Array(items) =>
      ArrayRoundTrip(items, depth, rest);
    case Object(entries) =>
      ObjectRoundTrip(entries, depth, rest);
  }

  lemma {:induction false} ArrayRoundTrip(items: seq<Value>, depth: nat, rest: string)
    requires Delimited(rest)
    ensures ReadValue(Render(Array(items), depth) + rest) == Ok(DArray(ItemMeanings(items)), rest)
    decreases items, 1
  {
    if items == [] {
      assert ("[]" + rest)[1..] == "]" + rest && ("]" + rest)[1..] == rest;
    } else {
      ItemsRoundTrip(items, depth, rest);
      SkipItems(items, depth, rest);
      ArrayText(items, depth, rest);
      ArrayStep("\n" + ItemsText(items, depth, rest), ItemMeanings(items), rest);
    }
  }

  lemma {:induction false} ObjectRoundTrip(entries: seq<Entry>, depth: nat, rest: string)
    requires Delimited(rest)
    ensures ReadValue(Render(Object(entries), depth) + rest) == Ok(DObject(EntryMeanings(entries)), rest)
    decreases entries, 1
  {
    if entries == [] {
      assert ("{}" + rest)[1..] == "}" + rest && ("}" + rest)[1..] == rest;
    } else {
      EntriesRoundTrip(entries, depth, rest);
      SkipEntries(entries, depth, rest);
      ObjectText(entries, depth, rest);
      ObjectStep("\n" + EntriesText(entries, depth, rest), EntryMeanings(entries), rest);
    }
  }

  lemma Bracketed(open: string, rows: string, closing: string, bracket: string, rest: string)
    ensures ((open + "\n") + rows + "\n" + closing + bracket) + rest
         == open + ("\n" + (rows + "\n" + closing + bracket + rest))
  {
  }

  lemma ArrayText(items: seq<Value>, depth: nat, rest: string)
    requires items != []
    ensures Render(Array(items), depth) + rest == "[" + ("\n" + ItemsText(items, depth, rest))
  {
    assert "[\n" == "[" + "\n";
    Bracketed("[", RenderItems(items, depth + 1), Indent(depth), "]", rest);
  }

  lemma ObjectText(entries: seq<Entry>, depth: nat, rest: string)
    requires entries != []
    ensures Render(Object(entries), depth) + rest == "{" + ("\n" + EntriesText(entries, depth, rest))
  {
    assert "{\n" == "{" + "\n";
    Bracketed("{", RenderEntries(entries, depth + 1), Indent(depth), "}", rest);
  }

  // One step of the reader over a non-empty array or object.
  lemma ArrayStep(after: string, items: seq<Doc>, rest: string)
    requires SkipWs(after) != "" && SkipWs(after)[0] != ']'
    requires ReadItems(SkipWs(after)) == Ok(items, rest)
    ensures ReadValue("[" + after) == Ok(DArray(items), rest)
  {
    assert ("[" + after)[1..] == after;
  }

  lemma ObjectStep(after: string, members: seq<Member>, rest: string)
    requires SkipWs(after) != "" && SkipWs(after)[0] != '}'
    requires ReadMembers(SkipWs(after)) == Ok(members, rest)
    ensures ReadValue("{" + after) == Ok(DObject(members), rest)
  {
    assert ("{" + after)[1..] == after;
  }

  lemma LastItem(s: string, item: Doc, tail: string, rest: string)
    requires ReadValue(s) == Ok(item, tail) && SkipWs(tail) == "]" + rest
    ensures ReadItems(s) == Ok([item], rest)
  {
    assert ("]" + rest)[1..] == rest;
  }

  lemma FurtherItem(s: string, item: Doc, after: string, items: seq<Doc>, rest: string)
    requires ReadValue(s) == Ok(item, "," + after)
    requires ReadItems(SkipWs(after)) == Ok(items, rest)
    ensures ReadItems(s) == Ok([item] + items, rest)
  {
    assert ("," + after)[1..] == after;
  }

  // A member's key and value, followed by `tail`.
  predicate ReadsMember(s: string, key: string, value: Doc, tail: string) {
    s != "" && s[0] == '\"'
    && var k := ReadString(s[1..]);
    k.Ok? && k.value == key
    && var colon := SkipWs(k.rest);
    colon != "" && colon[0] == ':' && ReadValue(SkipWs(colon[1..])) == Ok(value, tail)
  }

  lemma LastMember(s: string, key: string, value: Doc, tail: string, rest: string)
    requires ReadsMember(s, key, value, tail) && SkipWs(tail) == "}" + rest
    ensures ReadMembers(s) == Ok([Member(key, value)], rest)
  {
    assert ("}" + rest)[1..] == rest;
  }

  lemma FurtherMember(s: string, key: string, value: Doc, after: string, members: seq<Member>, rest: string)
    requires ReadsMember(s, key, value, "," + after)
    requires ReadMembers(SkipWs(after)) == Ok(members, rest)
    ensures ReadMembers(s) == Ok([Member(key, value)] + members, rest)
  {
    assert ("," + after)[1..] == after;
  }

  lemma MemberRoundTrip(key: string, text: string, value: Doc, tail: string)
    requires text != "" && !IsWs(text[0])
    requires ReadValue(text + tail) == Ok(value, tail)
    ensures ReadsMember(Quoted(key) + ": " + text + tail, key, value, tail)
  {
    var afterKey := ": " + text + tail;
    Assoc(Quoted(key), ": ", text, tail);
    QuotedRoundTrip(key, afterKey);
    SkipColon(text, tail);
    ComposeMember(Quoted(key) + afterKey, key, afterKey, text + tail, value, tail);
  }

  lemma SkipColon(text: string, tail: string)
    requires text != "" && !IsWs(text[0])
    ensures var after := ": " + text + tail;
      after[0] == ':' && SkipWs(after) == after && SkipWs(after[1..]) == text + tail
  {
    var after := ": " + text + tail;
    assert after[1..] == " " + (text + tail);
    assert (" " + (text + tail))[1..] == text + tail;
  }

  lemma ComposeMember(s: string, key: string, afterKey: string, valueText: string, value: Doc, tail: string)
    requires s != "" && s[0] == '\"' && ReadString(s[1..]) == Ok(key, afterKey)
    requires afterKey != "" && afterKey[0] == ':'
    requires SkipWs(afterKey) == afterKey && SkipWs(afterKey[1..]) == valueText
    requires ReadValue(valueText) == Ok(value, tail)
    ensures ReadsMember(s, key, value, tail)
  {
  }

  // The printed rows of an array, through its closing bracket.
  function ItemsText(items: seq<Value>, depth: nat, rest: string): string
    requires items != []
  {
    RenderItems(items, depth + 1) + "\n" + Indent(depth) + "]" + rest
  }

  // The same text once the indentation of its first row is skipped.
  function ItemsBody(items: seq<Value>, depth: nat, rest: string): string
    requires items != []
  {
    Render(items[0], depth + 1) + ItemsTail(items, depth, rest)
  }

  function ItemsTail(items: seq<Value>, depth: nat, rest: string): string
    requires items != []
  {
    if |items| == 1 then "\n" + Indent(depth) + "]" + rest
    else ",\n" + ItemsText(items[1..], depth, rest)
  }

  lemma LastRow(indent: string, row: string, closing: string, bracket: string, rest: string)
    ensures (indent + row) + "\n" + closing + bracket + rest
         == indent + (row + ("\n" + closing + bracket + rest))
  {
  }

  lemma FurtherRow(indent: string, row: string, more: string, closing: string, bracket: string, rest: string)
    ensures (indent + row + ",\n" + more) + "\n" + closing + bracket + rest
         == indent + (row + (",\n" + (more + "\n" + closing + bracket + rest)))
  {
  }

  lemma PrefixAssoc3(a: string, b: string, c: string)
    ensures a + b + c == a + (b + c)
  {
  }

  lemma PrefixAssoc(a: string, b: string)
    ensures "\n" + (a + b) == "\n" + a + b
  {
  }

  lemma SkipItems(items: seq<Value>, depth: nat, rest: string)
    requires items != []
    ensures SkipWs("\n" + ItemsText(items, depth, rest)) == ItemsBody(items, depth, rest)
    ensures ItemsBody(items, depth, rest) != "" && ItemsBody(items, depth, rest)[0] != ']'
  {
    var row, body := Render(items[0], depth + 1), ItemsBody(items, depth, rest);
    RenderStart(items[0], depth + 1);
    if |items| == 1 {
      LastRow(Indent(depth + 1), row, Indent(depth), "]", rest);
    } else {
      FurtherRow(Indent(depth + 1), row, RenderItems(items[1..], depth + 1), Indent(depth), "]", rest);
    }
    SkipLine(depth + 1, body);
    PrefixAssoc(Indent(depth + 1), body);
  }

  lemma ItemsTailShape(items: seq<Value>, depth: nat, rest: string)
    requires items != []
    ensures Delimited(ItemsTail(items, depth, rest))
    ensures |items| == 1 ==> SkipWs(ItemsTail(items, depth, rest)) == "]" + rest
    ensures |items| > 1 ==>
      ItemsTail(items, depth, rest) == "," + ("\n" + ItemsText(items[1..], depth, rest))
  {
    if |items| == 1 {
      SkipLine(depth, "]" + rest);
      PrefixAssoc3("\n" + Indent(depth), "]", rest);
    } else {
      assert ",\n" == "," + "\n";
      PrefixAssoc3(",", "\n", ItemsText(items[1..], depth, rest));
    }
  }

  lemma {:induction false} ItemsRoundTrip(items: seq<Value>, depth: nat, rest: string)
    requires items != []
    ensures ReadItems(ItemsBody(items, depth, rest)) == Ok(ItemMeanings(items), rest)
    decreases items, 0
  {
    var tail, item := ItemsTail(items, depth, rest), Meaning(items[0]);
    ItemsTailShape(items, depth, rest);
    ValueRoundTrip(items[0], depth + 1, tail);
    if |items| == 1 {
      LastItem(ItemsBody(items, depth, rest), item, tail, rest);
      assert ItemMeanings(items) == [item];
    } else {
      ItemsRoundTrip(items[1..], depth, rest);
      SkipItems(items[1..], depth, rest);
      FurtherItem(ItemsBody(items, depth, rest), item, "\n" + ItemsText(items[1..], depth, rest),
                  ItemMeanings(items[1..]), rest);
    }
  }

  function EntriesText(entries: seq<Entry>, depth: nat, rest: string): string
    requires entries != []
  {
    RenderEntries(entries, depth + 1) + "\n" + Indent(depth) + "}" + rest
  }

  function EntriesBody(entries: seq<Entry>, depth: nat, rest: string): string
    requires entries != []
  {
    Quoted(entries[0].key) + ": " + Render(entries[0].value, depth + 1) + EntriesTail(entries, depth, rest)
  }

  function EntriesTail(entries: seq<Entry>, depth: nat, rest: string): string
    requires entries != []
  {
    if |entries| == 1 then "\n" + Indent(depth) + "}" + rest
    else ",\n" + EntriesText(entries[1..], depth, rest)
  }

  lemma SkipEntries(entries: seq<Entry>, depth: nat, rest: string)
    requires entries != []
    ensures SkipWs("\n" + EntriesText(entries, depth, rest)) == EntriesBody(entries, depth, rest)
    ensures EntriesBody(entries, depth, rest)[0] == '\"'
  {
    var e, body := entries[0], EntriesBody(entries, depth, rest);
    var row, indent := Quoted(e.key) + ": " + Render(e.value, depth + 1), Indent(depth + 1);
    if |entries| == 1 {
      LastRow(indent, row, Indent(depth), "}", rest);
    } else {
      FurtherRow(indent, row, RenderEntries(entries[1..], depth + 1), Indent(depth), "}", rest);
    }
    RowAssoc(indent, Quoted(e.key), Render(e.value, depth + 1));
    SkipLine(depth + 1, body);
    PrefixAssoc(indent, body);
  }

  lemma RowAssoc(indent: string, key: string, value: string)
    ensures indent + key + ": " + value == indent + (key + ": " + value)
  {
  }

  lemma EntriesTailShape(entries: seq<Entry>, depth: nat, rest: string)
    requires entries != []
    ensures Delimited(EntriesTail(entries, depth, rest))
    ensures |entries| == 1 ==> SkipWs(EntriesTail(entries, depth, rest)) == "}" + rest
    ensures |entries| > 1 ==>
      EntriesTail(entries, depth, rest) == "," + ("\n" + EntriesText(entries[1..], depth, rest))
  {
    if |entries| == 1 {
      SkipLine(depth, "}" + rest);
      PrefixAssoc3("\n" + Indent(depth), "}", rest);
    } else {
      assert ",\n" == "," + "\n";
      PrefixAssoc3(",", "\n", EntriesText(entries[1..], depth, rest));
    }
  }

  lemma {:induction false} EntriesRoundTrip(entries: seq<Entry>, depth: nat, rest: string)
    requires entries != []
    ensures ReadMembers(EntriesBody(entries, depth, rest)) == Ok(EntryMeanings(entries), rest)
    decreases entries, 0
  {
    var e, tail, body := entries[0], EntriesTail(entries, depth, rest), EntriesBody(entries, depth, rest);
    EntriesTailShape(entries, depth, rest);
    RenderStart(e.value, depth + 1);
    ValueRoundTrip(e.value, depth + 1, tail);
    MemberRoundTrip(e.key, Render(e.value, depth + 1), Meaning(e.value), tail);
    if |entries| == 1 {
      LastMember(body, e.key, Meaning(e.value), tail, rest);
      assert EntryMeanings(entries) == [Member(e.key, Meaning(e.value))];
    } else {
      EntriesRoundTrip(entries[1..], depth, rest);
      SkipEntries(entries[1..], depth, rest);
      FurtherMember(body, e.key, Meaning(e.value), "\n" + EntriesText(entries[1..], depth, rest),
                    EntryMeanings(entries[1..]), rest);
    }
  }

  // The printed document is read back as exactly the printed value, and the numerals
  // in it denote the printed numbers.
  lemma RenderedTextIsReadBack(v: Value)
    ensures ReadText(Render(v, 0)) == Some(Meaning(v))
    ensures v.Number? ==> ValueOf(Numeral(v.n)) == v.n
  {
    ValueRoundTrip(v, 0, "");
    RenderStart(v, 0);
    assert Render(v, 0) + "" == Render(v, 0);
    if v.Number? { NumeralValue(v.n); }
  }

  // Hence printing is injective: two values print alike only when they are equal.
  lemma {:induction false} MeaningInjective(a: Value, b: Value)
    requires Meaning(a) == Meaning(b)
    ensures a == b
    decreases a, 1
  {
    match a {
      case Number(n) => NumeralValue(n); NumeralValue(b.n);
      case Array(items) => ItemMeaningsInjective(items, b.items);
      case Object(entries) => EntryMeaningsInjective(entries, b.entries);
      case _ =>
    }
  }

  lemma {:induction false} ItemMeaningsInjective(a: seq<Value>, b: seq<Value>)
    requires ItemMeanings(a) == ItemMeanings(b)
    ensures a == b
    decreases a, 0
  {
    if a != [] && b != [] {
      assert ItemMeanings(a)[0] == Meaning(a[0]) && ItemMeanings(a)[1..] == ItemMeanings(a[1..]);
      assert ItemMeanings(b)[0] == Meaning(b[0]) && ItemMeanings(b)[1..] == ItemMeanings(b[1..]);
      MeaningInjective(a[0], b[0]);
      ItemMeaningsInjective(a[1..], b[1..]);
      assert a == [a[0]] + a[1..] && b == [b[0]] + b[1..];
    }
  }

  lemma {:induction false} EntryMeaningsInjective(a: seq<Entry>, b: seq<Entry>)
    requires EntryMeanings(a) == EntryMeanings(b)
    ensures a == b
    decreases a, 0
  {
    if a != [] && b != [] {
      var x, y := EntryMeanings(a), EntryMeanings(b);
      assert x[0] == Member(a[0].key, Meaning(a[0].value)) && x[1..] == EntryMeanings(a[1..]);
      assert y[0] == Member(b[0].key, Meaning(b[0].value)) && y[1..] == EntryMeanings(b[1..]);
      MeaningInjective(a[0].value, b[0].value);
      EntryMeaningsInjective(a[1..], b[1..]);
      assert a == [a[0]] + a[1..] && b == [b[0]] + b[1..];
    }
  }

  lemma RenderInjective(a: Value, b: Value)
    requires Render(a, 0) == Render(b, 0)
    ensures a == b
  {
    RenderedTextIsReadBack(a);
    RenderedTextIsReadBack(b);
    MeaningInjective(a, b);
  }
}
