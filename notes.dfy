/**
 * The diagnostic notes shown under the train data: the snapshot's
 * `altre_metriche` text, `key=value` pairs separated by `;`, turned into
 * (label, value) rows.
 */
module Notes {
  import opened Wrappers

  /** `String.prototype.split` with a one-character separator. */
  function Split(s: string, sep: char): (parts: seq<string>)
    ensures |parts| >= 1
    ensures forall k :: 0 <= k < |parts| ==> sep !in parts[k]
  {
    if s == [] then [[]]
    else
      var rest := Split(s[1..], sep);
      if s[0] == sep then [[]] + rest
      else [[s[0]] + rest[0]] + rest[1..]
  }

  /** `Array.prototype.join` with a one-character separator. */
  function Join(parts: seq<string>, sep: char): string {
    if |parts| == 0 then []
    else if |parts| == 1 then parts[0]
    else parts[0] + [sep] + Join(parts[1..], sep)
  }

  /** Joining the pieces back together gives the original text. */
  lemma {:induction false} JoinSplit(s: string, sep: char)
    ensures Join(Split(s, sep), sep) == s
  {
    if s != [] {
      var rest := Split(s[1..], sep);
      JoinSplit(s[1..], sep);
      if s[0] != sep && |rest| > 1 {
        assert Join(rest, sep) == rest[0] + [sep] + Join(rest[1..], sep);
        var parts := [[s[0]] + rest[0]] + rest[1..];
        assert parts[1..] == rest[1..];
      }
    }
  }

  /** Text without the separator is one piece. */
  lemma {:induction false} SplitNoSeparator(s: string, sep: char)
    requires sep !in s
    ensures Split(s, sep) == [s]
  {
    if s != [] {
      assert sep !in s[1..] by {
        forall c | c in s[1..] ensures c in s { }
      }
      SplitNoSeparator(s[1..], sep);
      assert [s[0]] + s[1..] == s;
    }
  }

  /** Text before the first separator is the first piece; the rest splits on its own. */
  lemma {:induction false} SplitAtFirst(a: string, sep: char, b: string)
    requires sep !in a
    ensures Split(a + [sep] + b, sep) == [a] + Split(b, sep)
  {
    var s := a + [sep] + b;
    if a == [] {
      assert s[1..] == b;
    } else {
      assert s[0] == a[0] != sep;
      assert s[1..] == a[1..] + [sep] + b;
      assert sep !in a[1..] by {
        forall c | c in a[1..] ensures c in a { }
      }
      SplitAtFirst(a[1..], sep, b);
      assert [a[0]] + a[1..] == a;
    }
  }

  /** Splitting undoes joining pieces that hold no separator. */
  lemma {:induction false} SplitJoin(parts: seq<string>, sep: char)
    requires |parts| >= 1
    requires forall k :: 0 <= k < |parts| ==> sep !in parts[k]
    ensures Split(Join(parts, sep), sep) == parts
  {
    if |parts| == 1 {
      SplitNoSeparator(parts[0], sep);
    } else {
      SplitJoin(parts[1..], sep);
      SplitAtFirst(parts[0], sep, Join(parts[1..], sep));
    }
  }

  /** The first piece is everything up to the first separator. */
  lemma SplitHead(a: string, sep: char, b: string)
    requires sep !in a
    requires b == [] || b[0] == sep
    ensures Split(a + b, sep)[0] == a
  {
    if b == [] {
      assert a + b == a;
      SplitNoSeparator(a, sep);
    } else {
      assert a + b == a + [sep] + b[1..];
      SplitAtFirst(a, sep, b[1..]);
    }
  }

  /** The whitespace `trim` removes (ASCII only): space, tab, LF, VT, FF, CR. */
  predicate IsSpace(c: char) {
    c == ' ' || '\t' <= c <= '\r'
  }

  predicate AllSpace(s: string) {
    forall k :: 0 <= k < |s| ==> IsSpace(s[k])
  }

  /** How many whitespace characters `s` starts with. */
  function LeadingSpaces(s: string): (n: nat)
    ensures n <= |s| && AllSpace(s[..n])
    ensures n == |s| || !IsSpace(s[n])
  {
    if s != [] && IsSpace(s[0]) then
      var n := 1 + LeadingSpaces(s[1..]);
      assert forall k :: 1 <= k < n ==> s[..n][k] == s[1..][..n - 1][k - 1];
      n
    else 0
  }

  /** How many whitespace characters `s` ends with. */
  function TrailingSpaces(s: string): (n: nat)
    ensures n <= |s| && AllSpace(s[|s| - n..])
    ensures n == |s| || !IsSpace(s[|s| - n - 1])
  {
    if s != [] && IsSpace(s[|s| - 1]) then
      var init := s[..|s| - 1];
      var m := TrailingSpaces(init);
      SpacesExtend(s, m);
      assert m + 1 == |s| || s[|s| - (m + 1) - 1] == init[|init| - m - 1];
      1 + m
    else 0
  }

  /** A whitespace tail of all but the last character grows by a final whitespace character. */
  lemma SpacesExtend(s: string, m: nat)
    requires s != [] && IsSpace(s[|s| - 1])
    requires m <= |s| - 1 && AllSpace(s[..|s| - 1][|s| - 1 - m..])
    ensures AllSpace(s[|s| - (m + 1)..])
  {
    var tail, initTail := s[|s| - (m + 1)..], s[..|s| - 1][|s| - 1 - m..];
    forall k | 0 <= k < m + 1 ensures IsSpace(tail[k]) {
      if k < m {
        assert tail[k] == initTail[k];
      }
    }
  }

  /**
   * `trim`: the text between the leading and the trailing whitespace. What
   * is cut off is whitespace, and the result neither starts nor ends with any.
   */
  function Trim(s: string): (r: string)
    ensures r == [] || (!IsSpace(r[0]) && !IsSpace(r[|r| - 1]))
    ensures exists i, j :: 0 <= i <= j <= |s| && r == s[i..j] && AllSpace(s[..i]) && AllSpace(s[j..])
  {
    var i := LeadingSpaces(s);
    var t := s[i..];
    var n := TrailingSpaces(t);
    var j := i + |t| - n;
    assert t[..|t| - n] == s[i..j];
    assert t[|t| - n..] == s[j..];
    assert AllSpace(s[..i]) && AllSpace(s[j..]);
    s[i..j]
  }

  /** A text that neither starts nor ends with whitespace is left as it is. */
  lemma TrimUnchanged(s: string)
    requires s == [] || (!IsSpace(s[0]) && !IsSpace(s[|s| - 1]))
    ensures Trim(s) == s
  {
  }

  /** `filter(Boolean)` on strings: the non-empty ones, in order. */
  function NonEmpty(ps: seq<string>): (r: seq<string>)
    ensures forall k :: 0 <= k < |r| ==> r[k] != []
    ensures forall p :: p in r <==> p in ps && p != []
  {
    if ps == [] then []
    else (if ps[0] != [] then [ps[0]] else []) + NonEmpty(ps[1..])
  }

  /** Filtering keeps order: it distributes over concatenation. */
  lemma {:induction false} NonEmptyAppend(a: seq<string>, b: seq<string>)
    ensures NonEmpty(a + b) == NonEmpty(a) + NonEmpty(b)
  {
    if a != [] {
      assert (a + b)[0] == a[0];
      assert (a + b)[1..] == a[1..] + b;
      NonEmptyAppend(a[1..], b);
      var head := if a[0] != [] then [a[0]] else [];
      assert NonEmpty(a + b) == head + NonEmpty(a[1..] + b);
      assert head + (NonEmpty(a[1..]) + NonEmpty(b)) == (head + NonEmpty(a[1..])) + NonEmpty(b);
    } else {
      assert a + b == b;
    }
  }

  /** `key.replace(/_/g, ' ')`. */
  function Underscores(s: string): (r: string)
    ensures |r| == |s| && '_' !in r
    ensures forall k :: 0 <= k < |s| && s[k] != '_' ==> r[k] == s[k]
    ensures forall k :: 0 <= k < |s| && s[k] == '_' ==> r[k] == ' '
  {
    if s == [] then []
    else [if s[0] == '_' then ' ' else s[0]] + Underscores(s[1..])
  }

  datatype Note = Note(caption: string, value: string)

  /**
   * One `key=value` pair: the key with underscores as spaces (`Dato` when
   * empty), and the text up to the next `=` (`-` when there is no `=`).
   */
  function ParseNote(pair: string): Note {
    var parts := Split(pair, '=');
    var key := parts[0];
    var value := if |parts| >= 2 then Some(parts[1]) else None;
    Note(if key != [] then Underscores(key) else "Dato", value.GetOr("-"))
  }

  /** A pair without `=` is all key, with the value `-`. */
  lemma ParseNoteWithoutValue(pair: string)
    requires '=' !in pair
    ensures ParseNote(pair) == Note(if pair != [] then Underscores(pair) else "Dato", "-")
  {
    SplitNoSeparator(pair, '=');
  }

  /**
   * A pair `key=value...`: the caption comes from the text before the first
   * `=`, the value is the text between the first and the second `=` (or the
   * end), untrimmed; anything after a second `=` is dropped.
   */
  lemma ParseNoteFields(key: string, value: string, rest: string)
    requires '=' !in key && '=' !in value
    requires rest == [] || rest[0] == '='
    ensures ParseNote(key + "=" + value + rest) ==
      Note(if key != [] then Underscores(key) else "Dato", value)
  {
    var pair := key + "=" + value + rest;
    assert pair == key + ['='] + (value + rest);
    SplitAtFirst(key, '=', value + rest);
    SplitHead(value, '=', rest);
  }

  /** The trimmed, non-empty `;`-separated pieces of the notes text. */
  function Pieces(text: string): seq<string> {
    var raw := Split(text, ';');
    NonEmpty(seq(|raw|, k requires 0 <= k < |raw| => Trim(raw[k])))
  }

  /** An empty notes text has no pieces. */
  lemma EmptyTextHasNoPieces(text: string)
    requires text == []
    ensures Pieces(text) == []
  {
    SplitNoSeparator(text, ';');
    TrimUnchanged(text);
    var raw := Split(text, ';');
    var trimmed := seq(|raw|, k requires 0 <= k < |raw| => Trim(raw[k]));
    assert trimmed == [text];
    EmptiesFiltered(text);
  }

  /** Filtering drops a lone empty string. */
  lemma EmptiesFiltered(empty: string)
    requires empty == []
    ensures NonEmpty([empty]) == []
  {
    assert [empty][1..] == [];
  }

  /** `notes`: one row per non-empty piece of the text, in order. */
  function Notes(altre: Option<string>): seq<Note> {
    var ps := Pieces(altre.GetOr([]));
    seq(|ps|, k requires 0 <= k < |ps| => ParseNote(ps[k]))
  }

  /** A snapshot without notes text shows no rows. */
  lemma NotesMissing()
    ensures Notes(None) == []
  {
    EmptyTextHasNoPieces([]);
  }

  /** Trimming only removes characters. */
  lemma TrimKeeps(s: string)
    ensures forall c :: c in Trim(s) ==> c in s
  {
    var i, j :| 0 <= i <= j <= |s| && Trim(s) == s[i..j] && AllSpace(s[..i]) && AllSpace(s[j..]);
    forall c | c in s[i..j] ensures c in s { }
  }

  /** Every piece is non-empty, trimmed, free of `;`, and the trim of a piece of the text. */
  lemma PiecesShape(text: string)
    ensures forall p :: p in Pieces(text) ==>
      p != [] && ';' !in p && !IsSpace(p[0]) && !IsSpace(p[|p| - 1])
      && exists q :: q in Split(text, ';') && p == Trim(q)
  {
    var raw := Split(text, ';');
    var trimmed := seq(|raw|, k requires 0 <= k < |raw| => Trim(raw[k]));
    forall p | p in Pieces(text)
      ensures p != [] && ';' !in p && !IsSpace(p[0]) && !IsSpace(p[|p| - 1])
      ensures exists q :: q in raw && p == Trim(q)
    {
      assert p in trimmed;
      var k :| 0 <= k < |trimmed| && trimmed[k] == p;
      assert raw[k] in raw;
      TrimKeeps(raw[k]);
    }
  }

  /** Filtering a list without empty strings keeps it whole. */
  lemma {:induction false} NonEmptyKeepsAll(ps: seq<string>)
    requires forall k :: 0 <= k < |ps| ==> ps[k] != []
    ensures NonEmpty(ps) == ps
  {
    if ps != [] {
      NonEmptyKeepsAll(ps[1..]);
      assert [ps[0]] + ps[1..] == ps;
    }
  }

  /**
   * A pair the notes text can carry intact: a non-empty key, neither part
   * holding `=` or `;`, and no whitespace at the pair's two ends.
   */
  predicate CarriesPair(key: string, value: string) {
    key != [] && '=' !in key && ';' !in key && '=' !in value && ';' !in value
    && !IsSpace(key[0]) && (value == [] || !IsSpace(value[|value| - 1]))
  }

  /** The notes text holding `pairs`, written `key=value` and joined by `;`. */
  function NotesText(pairs: seq<(string, string)>): string {
    Join(seq(|pairs|, k requires 0 <= k < |pairs| => pairs[k].0 + "=" + pairs[k].1), ';')
  }

  /** One pair written as `key=value` is a single trimmed piece that parses back to the pair. */
  lemma PairText(key: string, value: string)
    requires CarriesPair(key, value)
    ensures var text := key + "=" + value;
      && ';' !in text && text != [] && Trim(text) == text
      && ParseNote(text) == Note(Underscores(key), value)
  {
    var text := key + "=" + value;
    assert text[0] == key[0];
    assert text[|text| - 1] == if value == [] then '=' else value[|value| - 1];
    TrimUnchanged(text);
    assert text == key + "=" + value + "";
    ParseNoteFields(key, value, "");
  }

  /** Pieces that are non-empty, trimmed and free of `;` come back unchanged from their join. */
  lemma PiecesOfJoin(texts: seq<string>)
    requires |texts| >= 1
    requires forall k :: 0 <= k < |texts| ==>
      ';' !in texts[k] && texts[k] != [] && Trim(texts[k]) == texts[k]
    ensures Pieces(Join(texts, ';')) == texts
  {
    SplitJoin(texts, ';');
    var raw := Split(Join(texts, ';'), ';');
    var trimmed := seq(|raw|, k requires 0 <= k < |raw| => Trim(raw[k]));
    assert trimmed == texts;
    NonEmptyKeepsAll(texts);
  }

  /**
   * Parsing the text written from well-formed pairs gives one row per pair,
   * in order: the key with underscores as spaces, and the value unchanged.
   */
  lemma NotesRoundTrip(pairs: seq<(string, string)>)
    requires |pairs| >= 1
    requires forall k :: 0 <= k < |pairs| ==> CarriesPair(pairs[k].0, pairs[k].1)
    ensures Notes(Some(NotesText(pairs))) ==
      seq(|pairs|, k requires 0 <= k < |pairs| => Note(Underscores(pairs[k].0), pairs[k].1))
  {
    var texts := seq(|pairs|, k requires 0 <= k < |pairs| => pairs[k].0 + "=" + pairs[k].1);
    forall k | 0 <= k < |texts|
      ensures ';' !in texts[k] && texts[k] != [] && Trim(texts[k]) == texts[k]
      ensures ParseNote(texts[k]) == Note(Underscores(pairs[k].0), pairs[k].1)
    {
      PairText(pairs[k].0, pairs[k].1);
    }
    PiecesOfJoin(texts);
    assert Pieces(NotesText(pairs)) == texts;
  }

  /** Joining two pieces puts one separator between them. */
  lemma JoinTwo(a: string, b: string, sep: char)
    ensures Join([a, b], sep) == a + [sep] + b
  {
    assert [a, b][1..] == [b];
  }

  /** Rewriting underscores works piece by piece. */
  lemma {:induction false} UnderscoresAppend(x: string, y: string)
    ensures Underscores(x + y) == Underscores(x) + Underscores(y)
  {
    if x == [] {
      assert x + y == y;
    } else {
      assert (x + y)[0] == x[0];
      assert (x + y)[1..] == x[1..] + y;
      UnderscoresAppend(x[1..], y);
    }
  }

  /** Text without underscores is shown as it is. */
  lemma UnderscoresNone(s: string)
    requires '_' !in s
    ensures Underscores(s) == s
  {
    var r := Underscores(s);
    forall k | 0 <= k < |s| ensures r[k] == s[k] {
      assert s[k] in s;
    }
  }

  /** A key made of two words around one underscore is shown with a space there. */
  lemma UnderscoreBetween(a: string, b: string)
    requires '_' !in a && '_' !in b
    ensures Underscores(a + "_" + b) == a + " " + b
  {
    UnderscoresAppend(a + "_", b);
    UnderscoresAppend(a, "_");
    UnderscoresNone(a);
    UnderscoresNone(b);
    assert Underscores("_") == " ";
  }

  /** One non-empty lower-case word: each half of a two-word key. */
  predicate Word(w: string) {
    w != [] && forall c :: c in w ==> 'a' <= c <= 'z'
  }

  /** A non-empty run of ASCII letters and digits: the value shape the two-pair example uses. */
  predicate PlainValue(v: string) {
    v != [] && forall c :: c in v ==> ('a' <= c <= 'z' || 'A' <= c <= 'Z' || '0' <= c <= '9')
  }

  /**
   * Two pairs with two-word keys, `a_b=v;c_d=w`, give two rows whose keys are
   * shown with spaces: `a b` with `v`, then `c d` with `w`.
   */
  lemma TwoPairs(a: string, b: string, v: string, c: string, d: string, w: string)
    requires Word(a) && Word(b) && Word(c) && Word(d) && PlainValue(v) && PlainValue(w)
    ensures Notes(Some((a + "_" + b) + "=" + v + ";" + (c + "_" + d) + "=" + w)) ==
      [Note(a + " " + b, v), Note(c + " " + d, w)]
  {
    var pairs := [(a + "_" + b, v), (c + "_" + d, w)];
    WordsCarry(a, b, v);
    WordsCarry(c, d, w);
    NotesRoundTrip(pairs);
    TwoPairsText(pairs);
    var rows := seq(|pairs|, k requires 0 <= k < |pairs| => Note(Underscores(pairs[k].0), pairs[k].1));
    assert rows == [Note(Underscores(pairs[0].0), v), Note(Underscores(pairs[1].0), w)];
  }

  /** Two pairs are written `key=value;key=value`. */
  lemma TwoPairsText(pairs: seq<(string, string)>)
    requires |pairs| == 2
    ensures NotesText(pairs) == pairs[0].0 + "=" + pairs[0].1 + ";" + pairs[1].0 + "=" + pairs[1].1
  {
    var texts := seq(|pairs|, k requires 0 <= k < |pairs| => pairs[k].0 + "=" + pairs[k].1);
    assert texts == [texts[0], texts[1]];
    JoinTwo(texts[0], texts[1], ';');
  }

  /** A two-word key with a plain value is a pair the notes text carries intact, shown with a space. */
  lemma WordsCarry(a: string, b: string, v: string)
    requires Word(a) && Word(b) && PlainValue(v)
    ensures CarriesPair(a + "_" + b, v)
    ensures Underscores(a + "_" + b) == a + " " + b
  {
    var key := a + "_" + b;
    assert key[0] == a[0] && a[0] in a;
    assert v[|v| - 1] in v;
    assert forall c :: c in key ==> c in a || c == '_' || c in b;
    UnderscoreBetween(a, b);
  }

  /** The seeded live record's notes text gives two rows, underscores shown as spaces. */
  lemma SeedNotes(text: string)
    requires text == "temperatura_freni=65C;pressione_linea=8bar"
    ensures Notes(Some(text)) == [Note("temperatura freni", "65C"), Note("pressione linea", "8bar")]
  {
    var a, b, v, c, d, w := "temperatura", "freni", "65C", "pressione", "linea", "8bar";
    SeedWords(a, b, v, c, d, w);
    TwoPairs(a, b, v, c, d, w);
    SeedSpelling(a, b, v, c, d, w, text);
  }

  lemma SeedWords(a: string, b: string, v: string, c: string, d: string, w: string)
    requires a == "temperatura" && b == "freni" && v == "65C"
    requires c == "pressione" && d == "linea" && w == "8bar"
    ensures Word(a) && Word(b) && Word(c) && Word(d) && PlainValue(v) && PlainValue(w)
  {
  }

  lemma SeedSpelling(a: string, b: string, v: string, c: string, d: string, w: string, text: string)
    requires a == "temperatura" && b == "freni" && v == "65C"
    requires c == "pressione" && d == "linea" && w == "8bar"
    requires text == "temperatura_freni=65C;pressione_linea=8bar"
    ensures (a + "_" + b) + "=" + v + ";" + (c + "_" + d) + "=" + w == text
    ensures a + " " + b == "temperatura freni" && c + " " + d == "pressione linea"
  {
  }
}
