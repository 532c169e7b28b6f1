/** The bounded release audit (tools/release_audit.py): the pattern set and the
    streaming scan that carries an overlap between chunks. A byte string is a
    string; a digest is the bytes it was taken of. */
module ReleaseAudit {
  import opened Text

  function LowerByte(c: char): char {
    if 'A' <= c <= 'Z' then (c as int + 32) as char else c
  }

  function Lower(s: string): (r: string)
    ensures |r| == |s|
    ensures forall i :: 0 <= i < |s| ==> r[i] == LowerByte(s[i])
  {
    seq(|s|, i requires 0 <= i < |s| => LowerByte(s[i]))
  }

  datatype Pattern = Pattern(raw: string) {
    function Folded(): (f: string)
      ensures |f| == |raw|
    {
      Lower(raw)
    }
  }

  // Equal, or the two cases of one ASCII letter.
  predicate SameLetter(a: char, b: char) {
    a == b || ('A' <= a <= 'Z' && b as int == a as int + 32) || ('A' <= b <= 'Z' && a as int == b as int + 32)
  }

  predicate SameText(a: string, b: string) { |a| == |b| && forall k :: 0 <= k < |a| ==> SameLetter(a[k], b[k]) }

  // Folding identifies exactly the texts that differ in case alone.
  lemma FoldIsCaseOnly(a: string, b: string)
    ensures Lower(a) == Lower(b) <==> SameText(a, b)
  {
    if Lower(a) == Lower(b) {
      assert |a| == |Lower(a)| == |Lower(b)| == |b|;
      forall k | 0 <= k < |a| ensures SameLetter(a[k], b[k]) {
        assert Lower(a)[k] == LowerByte(a[k]) && Lower(b)[k] == LowerByte(b[k]);
      }
    }
  }

  // ---------------------------------------------------------------- the pattern set

  // Python's str.strip() whitespace within printable ASCII is the space alone.
  predicate ValidTerm(value: string) {
    && value != ""
    && value[0] != ' ' && value[|value| - 1] != ' '
    && forall i :: 0 <= i < |value| ==> 0x20 <= value[i] as int <= 0x7E
  }

  function FoldSet(values: seq<string>): set<string> { set v | v in values :: Lower(v) }

  // v is the first of the values that folds as it does.
  predicate FirstOfItsFold(values: seq<string>, v: string) {
    exists i :: 0 <= i < |values| && values[i] == v
      && forall j :: 0 <= j < i ==> Lower(values[j]) != Lower(v)
  }

  // The dictionary after the first n values.
  predicate Collected(values: seq<string>, n: nat, found: map<string, Pattern>)
    requires n <= |values|
  {
    && found.Keys == FoldSet(values[..n])
    && forall f :: f in found ==> found[f].Folded() == f && FirstOfItsFold(values, found[f].raw)
  }

  lemma CollectStep(values: seq<string>, n: nat, found: map<string, Pattern>)
    requires n < |values| && Collected(values, n, found)
    ensures var v := values[n];
      Collected(values, n + 1, if Lower(v) in found then found else found[Lower(v) := Pattern(v)])
  {
    var v := values[n];
    assert values[..n + 1] == values[..n] + [v];
    assert FoldSet(values[..n + 1]) == FoldSet(values[..n]) + {Lower(v)};
    if Lower(v) !in found {
      forall j | 0 <= j < n ensures Lower(values[j]) != Lower(v) {
        assert values[..n][j] in values[..n];
      }
      assert FirstOfItsFold(values, v);
    }
  }

  // Two terms are one pattern exactly when they differ in case alone; the first spelling is kept.
  method Patterns(values: seq<string>) returns (r: Option<seq<Pattern>>)
    ensures r.Some? <==> values != [] && forall v :: v in values ==> ValidTerm(v)
    ensures r.Some? ==>
      && (forall p :: p in r.value ==> FirstOfItsFold(values, p.raw))
      && StrictlySorted(Folds(r.value))
      && (forall f :: f in Folds(r.value) <==> f in FoldSet(values))
  {
    hide Collected, ValidTerm, Less, FirstOfItsFold;
    var found: map<string, Pattern> := map[];
    NothingCollected(values);
    for i := 0 to |values|
      invariant forall j :: 0 <= j < i ==> ValidTerm(values[j])
      invariant Collected(values, i, found)
    {
      var value := values[i];
      var valid := CheckTerm(value);
      if !valid {
        return None;
      }
      CollectStep(values, i, found);
      if Lower(value) !in found {
        found := found[Lower(value) := Pattern(value)];
      }
    }
    if values == [] {
      return None;
    }
    var keys := SortedSet(found.Keys);
    var out := seq(|keys|, i requires 0 <= i < |keys| => found[keys[i]]);
    SortedPatterns(values, found, keys, out);
    return Some(out);
  }

  function Folds(patterns: seq<Pattern>): (folds: seq<string>)
    ensures |folds| == |patterns| && forall i :: 0 <= i < |folds| ==> folds[i] == patterns[i].Folded()
  {
    seq(|patterns|, i requires 0 <= i < |patterns| => patterns[i].Folded())
  }

  lemma NothingCollected(values: seq<string>)
    ensures Collected(values, 0, map[])
  {
  }

  lemma SortedPatterns(values: seq<string>, found: map<string, Pattern>, keys: seq<string>, out: seq<Pattern>)
    requires Collected(values, |values|, found)
    requires forall k :: k in keys <==> k in found
    requires |out| == |keys| && forall i :: 0 <= i < |keys| ==> out[i] == found[keys[i]]
    ensures Folds(out) == keys
    ensures forall f :: f in keys <==> f in FoldSet(values)
    ensures forall p :: p in out ==> FirstOfItsFold(values, p.raw)
  {
    assert values[..|values|] == values;
  }

  method CheckTerm(value: string) returns (valid: bool)
    ensures valid <==> ValidTerm(value)
  {
    if value == "" || value[0] == ' ' || value[|value| - 1] == ' ' {
      return false;
    }
    for i := 0 to |value|
      invariant forall j :: 0 <= j < i ==> 0x20 <= value[j] as int <= 0x7E
    {
      if !(0x20 <= value[i] as int <= 0x7E) { return false; }
    }
    return true;
  }

  // ---------------------------------------------------------------- occurrences

  // p stands in s at position i.
  predicate OccursAt(p: string, s: string, i: nat) { i + |p| <= |s| && s[i..i + |p|] == p }

  predicate Occurs(p: string, s: string) { exists i :: 0 <= i <= |s| && OccursAt(p, s, i) }

  // Case-insensitive occurrence in a byte string.
  predicate Found(p: Pattern, content: string) { Occurs(p.Folded(), Lower(content)) }

  function Concat(chunks: seq<string>): string {
    if chunks == [] then "" else chunks[0] + Concat(chunks[1..])
  }

  lemma {:induction false} ConcatAppend(chunks: seq<string>, chunk: string)
    ensures Concat(chunks + [chunk]) == Concat(chunks) + chunk
  {
    if chunks == [] {
      assert [] + [chunk] == [chunk];
      assert Concat([chunk]) == chunk + Concat([]);
    } else {
      ConcatAppend(chunks[1..], chunk);
      assert (chunks + [chunk])[1..] == chunks[1..] + [chunk];
    }
  }

  // The last `overlap` bytes, or everything when there are fewer.
  function Tail(s: string, overlap: nat): string {
    if |s| <= overlap then s else s[|s| - overlap..]
  }

  // An occurrence in the extended text lies in the old text or inside the window.
  lemma OverlapSuffices(p: string, text: string, chunk: string, overlap: nat)
    requires 0 < |p| <= overlap + 1
    ensures Occurs(p, text + chunk) <==> Occurs(p, text) || Occurs(p, Tail(text, overlap) + chunk)
  {
    var whole, window := text + chunk, Tail(text, overlap) + chunk;
    var shift := |whole| - |window|;
    assert window == whole[shift..];
    if Occurs(p, whole) {
      var i :| 0 <= i <= |whole| && OccursAt(p, whole, i);
      if i + |p| <= |text| {
        assert text[i..i + |p|] == whole[i..i + |p|];
        assert OccursAt(p, text, i);
      } else {
        assert window[i - shift..i - shift + |p|] == whole[i..i + |p|];
        assert OccursAt(p, window, i - shift);
      }
    }
    if Occurs(p, text) {
      var i :| 0 <= i <= |text| && OccursAt(p, text, i);
      assert whole[i..i + |p|] == text[i..i + |p|];
      assert OccursAt(p, whole, i);
    }
    if Occurs(p, window) {
      var i :| 0 <= i <= |window| && OccursAt(p, window, i);
      assert whole[i + shift..i + shift + |p|] == window[i..i + |p|];
      assert OccursAt(p, whole, i + shift);
    }
  }

  lemma FoundAcrossChunks(p: Pattern, text: string, chunk: string, overlap: nat)
    requires 0 < |p.raw| <= overlap + 1
    ensures Found(p, text + chunk) <==> Found(p, text) || Found(p, Tail(text, overlap) + chunk)
  {
    assert Lower(text + chunk) == Lower(text) + Lower(chunk);
    assert Lower(Tail(text, overlap) + chunk) == Tail(Lower(text), overlap) + Lower(chunk);
    OverlapSuffices(p.Folded(), Lower(text), Lower(chunk), overlap);
  }

  // The term stands at i in the content, letter by letter, in any mixture of cases.
  predicate ContainsAt(content: string, term: string, i: nat) {
    i + |term| <= |content| && forall k :: 0 <= k < |term| ==> SameLetter(term[k], content[i + k])
  }

  predicate Contains(content: string, term: string) { exists i :: 0 <= i <= |content| && ContainsAt(content, term, i) }

  lemma FoundIsContained(p: Pattern, content: string)
    ensures Found(p, content) <==> Contains(content, p.raw)
  {
    var folded := Lower(content);
    forall i | 0 <= i <= |content| ensures OccursAt(p.Folded(), folded, i) <==> ContainsAt(content, p.raw, i) {
      if i + |p.raw| <= |content| {
        var part := content[i..i + |p.raw|];
        assert folded[i..i + |p.raw|] == Lower(part);
        FoldIsCaseOnly(p.raw, part);
        assert forall k :: 0 <= k < |p.raw| ==> part[k] == content[i + k];
      }
    }
  }

  // ---------------------------------------------------------------- the streaming scan

  function Matches(value: string, patterns: seq<Pattern>): set<Pattern> {
    set p | p in patterns && Found(p, value)
  }

  method Longest(patterns: seq<Pattern>) returns (maximum: nat)
    requires patterns != []
    ensures forall p :: p in patterns ==> |p.Folded()| <= maximum
    ensures exists p :: p in patterns && |p.Folded()| == maximum
  {
    maximum := |patterns[0].Folded()|;
    for i := 1 to |patterns|
      invariant forall j :: 0 <= j < i ==> |patterns[j].Folded()| <= maximum
      invariant exists p :: p in patterns && |p.Folded()| == maximum
    {
      if |patterns[i].Folded()| > maximum {
        maximum := |patterns[i].Folded()|;
        assert patterns[i] in patterns;
      }
    }
  }

  // The file is read as a series of non-empty chunks; the scan reports exactly the
  // patterns that occur, ignoring case, anywhere in the whole file.
  method ContentMatches(chunks: seq<string>, patterns: seq<Pattern>) returns (matched: set<Pattern>)
    requires patterns != [] && forall p :: p in patterns ==> p.raw != ""
    requires forall c :: c in chunks ==> c != ""
    ensures forall p :: p in matched <==> p in patterns && Contains(Concat(chunks), p.raw)
  {
    hide Matches, Tail, Contains;
    var maximum := Longest(patterns);
    var overlap: nat := if maximum == 0 then 0 else maximum - 1;
    matched := {};
    var tail := "";
    ScanStart(patterns, overlap);
    for i := 0 to |chunks|
      invariant tail == Tail(Concat(chunks[..i]), overlap)
      invariant matched == Matches(Concat(chunks[..i]), patterns)
    {
      var window := tail + chunks[i];
      assert chunks[..i+1] == chunks[..i] + [chunks[i]];
      ConcatAppend(chunks[..i], chunks[i]);
      ScanStep(patterns, Concat(chunks[..i]), chunks[i], overlap);
      matched := matched + Matches(window, patterns);
      tail := if overlap == 0 then "" else LastBytes(window, overlap);
    }
    assert chunks[..|chunks|] == chunks;
    MatchesAre(Concat(chunks), patterns);
  }

  lemma MatchesAre(content: string, patterns: seq<Pattern>)
    ensures forall p :: p in Matches(content, patterns) <==> p in patterns && Contains(content, p.raw)
  {
    hide Found, Contains;
    forall p: Pattern ensures Found(p, content) <==> Contains(content, p.raw) { FoundIsContained(p, content); }
  }

  // window[-overlap:]
  function LastBytes(window: string, overlap: nat): string {
    if |window| <= overlap then window else window[|window| - overlap..]
  }

  lemma ScanStart(patterns: seq<Pattern>, overlap: nat)
    requires forall p :: p in patterns ==> p.raw != ""
    ensures Matches("", patterns) == {} && Tail("", overlap) == ""
  {
  }

  lemma ScanStep(patterns: seq<Pattern>, before: string, chunk: string, overlap: nat)
    requires forall p :: p in patterns ==> 0 < |p.raw| <= overlap + 1
    ensures Matches(before + chunk, patterns)
         == Matches(before, patterns) + Matches(Tail(before, overlap) + chunk, patterns)
    ensures Tail(before + chunk, overlap) == LastBytes(Tail(before, overlap) + chunk, overlap)
    ensures overlap == 0 ==> Tail(before + chunk, overlap) == ""
  {
    hide Found;
    forall p | p in patterns
      ensures Found(p, before + chunk) <==> Found(p, before) || Found(p, Tail(before, overlap) + chunk)
    {
      FoundAcrossChunks(p, before, chunk, overlap);
    }
  }
}
