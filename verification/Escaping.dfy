/**
  Query text handed to SQLite: LIKE patterns with an escape character and FTS5 phrase queries. Escaping is
  judged by the language that reads it: a LIKE matcher and an FTS5 lexer and parser.
*/
module Escaping {
  import opened Prelude

  // ---------------------------------------------------------------- LIKE

  /** str::replace of one character by a string. */
  function Replace(s: string, from: char, to: string): string {
    if s == [] then [] else (if s[0] == from then to else [s[0]]) + Replace(s[1..], from, to)
  }

  /** escape_like: three passes, the backslash first. */
  function EscapeLike(value: string): string {
    Replace(Replace(Replace(value, '\\', "\\\\"), '%', "\\%"), '_', "\\_")
  }

  predicate Special(c: char) {
    c == '\\' || c == '%' || c == '_'
  }

  function EscapeEach(s: string): string {
    if s == [] then [] else (if Special(s[0]) then ['\\', s[0]] else [s[0]]) + EscapeEach(s[1..])
  }

  lemma {:induction false} ReplaceConcat(a: string, b: string, from: char, to: string)
    ensures Replace(a + b, from, to) == Replace(a, from, to) + Replace(b, from, to)
  {
    if a == [] {
      assert a + b == b;
    } else {
      var here := if a[0] == from then to else [a[0]];
      ReplaceConcat(a[1..], b, from, to);
      assert (a + b)[0] == a[0] && (a + b)[1..] == a[1..] + b;
      assert Replace(a + b, from, to) == here + Replace(a[1..] + b, from, to);
      Associate(here, Replace(a[1..], from, to), Replace(b, from, to));
    }
  }

  lemma Associate(x: string, y: string, z: string)
    ensures x + (y + z) == (x + y) + z
  {
  }

  lemma EscapeOne(c: char)
    ensures EscapeLike([c]) == if Special(c) then ['\\', c] else [c]
  {
    if c == '\\' {
      assert Replace("\\", '\\', "\\\\") == "\\\\";
      assert Replace("\\\\", '%', "\\%") == "\\\\";
      assert Replace("\\\\", '_', "\\_") == "\\\\";
    } else if c == '%' {
      assert Replace("%", '\\', "\\\\") == "%";
      assert Replace("%", '%', "\\%") == "\\%";
      assert Replace("\\%", '_', "\\_") == "\\%";
    } else if c == '_' {
      assert Replace("_", '\\', "\\\\") == "_" && Replace("_", '%', "\\%") == "_";
      assert Replace("_", '_', "\\_") == "\\_";
    } else {
      assert Replace([c], '\\', "\\\\") == [c] && Replace([c], '%', "\\%") == [c];
    }
  }

  /** The three passes never disturb one another: together they escape character by character. */
  lemma {:induction false} EscapeIsPerCharacter(s: string)
    ensures EscapeLike(s) == EscapeEach(s)
  {
    if s != [] {
      var a, b := [s[0]], s[1..];
      assert s == a + b;
      ReplaceConcat(a, b, '\\', "\\\\");
      var a1, b1 := Replace(a, '\\', "\\\\"), Replace(b, '\\', "\\\\");
      ReplaceConcat(a1, b1, '%', "\\%");
      ReplaceConcat(Replace(a1, '%', "\\%"), Replace(b1, '%', "\\%"), '_', "\\_");
      EscapeOne(s[0]);
      EscapeIsPerCharacter(b);
    }
  }

  /** LIKE ignores the case of ASCII letters. */
  function Fold(c: char): char {
    if 'A' <= c <= 'Z' then c - 'A' + 'a' else c
  }

  function FoldAll(s: string): (r: string)
    ensures |r| == |s|
    ensures forall i :: 0 <= i < |s| ==> r[i] == Fold(s[i])
  {
    seq(|s|, i requires 0 <= i < |s| => Fold(s[i]))
  }

  /** pattern LIKE with ESCAPE '\'; a pattern that ends in the escape character matches nothing. */
  predicate Like(pattern: string, s: string)
    decreases |pattern| + |s|
  {
    if pattern == [] then s == []
    else if pattern[0] == '%' then Like(pattern[1..], s) || (s != [] && Like(pattern, s[1..]))
    else if pattern[0] == '\\' then
      |pattern| >= 2 && s != [] && Fold(pattern[1]) == Fold(s[0]) && Like(pattern[2..], s[1..])
    else if pattern[0] == '_' then s != [] && Like(pattern[1..], s[1..])
    else s != [] && Fold(pattern[0]) == Fold(s[0]) && Like(pattern[1..], s[1..])
  }

  lemma {:induction false} PercentMatchesAll(s: string)
    ensures Like("%", s)
  {
    if s != [] {
      PercentMatchesAll(s[1..]);
    } else {
      assert Like([], s);
    }
  }

  lemma FoldStep(q: string, s: string)
    requires q != []
    ensures FoldAll(q) <= FoldAll(s) <==>
            s != [] && Fold(q[0]) == Fold(s[0]) && FoldAll(q[1..]) <= FoldAll(s[1..])
  {
  }

  lemma {:induction false} LikePrefix(q: string, s: string)
    ensures Like(EscapeEach(q) + "%", s) <==> FoldAll(q) <= FoldAll(s)
  {
    if q == [] {
      PercentMatchesAll(s);
      assert EscapeEach(q) + "%" == "%";
    } else {
      var rest := EscapeEach(q[1..]) + "%";
      if Special(q[0]) {
        assert EscapeEach(q) + "%" == ['\\', q[0]] + rest;
      } else {
        assert EscapeEach(q) + "%" == [q[0]] + rest;
      }
      FoldStep(q, s);
      if s != [] {
        LikePrefix(q[1..], s[1..]);
      }
    }
  }

  lemma {:induction false} LikeInfix(q: string, s: string)
    ensures Like("%" + EscapeEach(q) + "%", s) <==> Contains(FoldAll(s), FoldAll(q))
  {
    var tail := EscapeEach(q) + "%";
    var pattern := "%" + EscapeEach(q) + "%";
    assert pattern == ['%'] + tail;
    assert pattern[1..] == tail;
    LikePrefix(q, s);
    if s != [] {
      LikeInfix(q, s[1..]);
      assert FoldAll(s)[1..] == FoldAll(s[1..]);
    }
  }

  predicate Lowered(s: string) {
    forall i :: 0 <= i < |s| ==> !('A' <= s[i] <= 'Z')
  }

  /** The escaped query matches literally: every wildcard in it has lost its meaning, and nothing else. */
  lemma EscapedLikeIsLiteral(q: string, s: string)
    ensures Like("%" + EscapeLike(q) + "%", s) <==> Contains(FoldAll(s), FoldAll(q))
    ensures Like(EscapeLike(q) + "%", s) <==> FoldAll(q) <= FoldAll(s)
    ensures Lowered(q) && Lowered(s) ==> (Like("%" + EscapeLike(q) + "%", s) <==> Contains(s, q))
    ensures Lowered(q) && Lowered(s) ==> (Like(EscapeLike(q) + "%", s) <==> q <= s)
  {
    EscapeIsPerCharacter(q);
    LikeInfix(q, s);
    LikePrefix(q, s);
    if Lowered(q) && Lowered(s) {
      assert FoldAll(q) == q && FoldAll(s) == s;
    }
  }

  // ---------------------------------------------------------------- words

  /** char::is_whitespace (the Unicode White_Space property). */
  predicate IsSpace(c: char) {
    var v := c as int;
    || 0x9 <= v <= 0xD || v == 0x20 || v == 0x85 || v == 0xA0 || v == 0x1680
    || 0x2000 <= v <= 0x200A || v == 0x2028 || v == 0x2029 || v == 0x202F || v == 0x205F || v == 0x3000
  }

  /** The leading run of non-space characters. */
  function FirstWord(s: string): (w: string)
    ensures w <= s
    ensures forall i :: 0 <= i < |w| ==> !IsSpace(w[i])
    ensures |w| < |s| ==> IsSpace(s[|w|])
  {
    if s == [] || IsSpace(s[0]) then [] else [s[0]] + FirstWord(s[1..])
  }

  /** split_whitespace. */
  function Words(s: string): (words: seq<string>)
    ensures forall w :: w in words ==> w != [] && forall i :: 0 <= i < |w| ==> !IsSpace(w[i])
    decreases |s|
  {
    if s == [] then []
    else if IsSpace(s[0]) then Words(s[1..])
    else [FirstWord(s)] + Words(s[|FirstWord(s)|..])
  }

  function Join(words: seq<string>, separator: string): string {
    if words == [] then []
    else if |words| == 1 then words[0]
    else words[0] + separator + Join(words[1..], separator)
  }

  lemma {:induction false} FirstWordOf(w: string, rest: string)
    requires forall i :: 0 <= i < |w| ==> !IsSpace(w[i])
    requires rest == [] || IsSpace(rest[0])
    ensures FirstWord(w + rest) == w
  {
    if w == [] {
      assert w + rest == rest;
    } else {
      FirstWordOf(w[1..], rest);
      assert (w + rest)[1..] == w[1..] + rest;
    }
  }

  lemma {:induction false} WordsOfJoin(words: seq<string>)
    requires forall w :: w in words ==> w != [] && forall i :: 0 <= i < |w| ==> !IsSpace(w[i])
    ensures Words(Join(words, " ")) == words
  {
    if words != [] {
      var w, more := words[0], words[1..];
      var rest := if more == [] then [] else " " + Join(more, " ");
      var line := Join(words, " ");
      WordsOfJoin(more);
      assert line == w + rest;
      FirstWordOf(w, rest);
      assert line[0] == w[0];
      assert line[|w|..] == rest;
      if more != [] {
        assert rest[1..] == Join(more, " ");
        assert Words(rest) == Words(rest[1..]);
      }
      assert words == [w] + more;
    }
  }

  /** Normalising the spacing of a query keeps its words, so normalising twice changes nothing more. */
  lemma SpacingKeepsWords(q: string)
    ensures Words(Join(Words(q), " ")) == Words(q)
  {
    WordsOfJoin(Words(q));
  }

  // ---------------------------------------------------------------- FTS5 queries

  function Quoted(term: string): string {
    "\"" + Replace(term, '"', "\"\"") + "\""
  }

  function QuoteAll(terms: seq<string>): seq<string> {
    if terms == [] then [] else [Quoted(terms[0])] + QuoteAll(terms[1..])
  }

  /** build_fts_query. */
  function BuildFtsQuery(query: string): string {
    Join(QuoteAll(Words(query)), " AND ")
  }

  datatype Token = Phrase(text: string) | Bareword(name: string)

  datatype Scanned = Scanned(text: string, rest: string)

  /** The body of an FTS5 string, after its opening quote: a doubled quote stands for one. */
  function PhraseBody(s: string): (r: Option<Scanned>)
    ensures r.Some? ==> |r.value.rest| < |s|
    decreases |s|
  {
    if s == [] then None
    else if s[0] != '"' then
      match PhraseBody(s[1..])
      case None => None
      case Some(b) => Some(Scanned([s[0]] + b.text, b.rest))
    else if |s| >= 2 && s[1] == '"' then
      match PhraseBody(s[2..])
      case None => None
      case Some(b) => Some(Scanned(['"'] + b.text, b.rest))
    else Some(Scanned([], s[1..]))
  }

  predicate BarewordChar(c: char) {
    'a' <= c <= 'z' || 'A' <= c <= 'Z' || '0' <= c <= '9' || c == '_' || c as int == 0x1A || c as int >= 0x80
  }

  function BarewordBody(s: string): (r: Scanned)
    ensures |r.text| + |r.rest| == |s|
  {
    if s == [] || !BarewordChar(s[0]) then Scanned([], s)
    else var b := BarewordBody(s[1..]); Scanned([s[0]] + b.text, b.rest)
  }

  function Prepend(token: Token, more: Option<seq<Token>>): Option<seq<Token>> {
    if more.None? then None else Some([token] + more.value)
  }

  /** The FTS5 lexer on strings and barewords; any other punctuation is refused here. */
  function Lex(s: string): Option<seq<Token>>
    decreases |s|
  {
    if s == [] then Some([])
    else if s[0] == ' ' || s[0] == '\t' || s[0] == '\n' || s[0] == '\r' then Lex(s[1..])
    else if s[0] == '"' then
      match PhraseBody(s[1..])
      case None => None
      case Some(b) => Prepend(Phrase(b.text), Lex(b.rest))
    else if BarewordChar(s[0]) then
      var b := BarewordBody(s[1..]);
      Prepend(Bareword([s[0]] + b.text), Lex(b.rest))
    else None
  }

  /** phrase (AND phrase)*, or nothing at all. */
  function Conjunction(tokens: seq<Token>): Option<seq<string>> {
    if tokens == [] then Some([])
    else if tokens[0].Phrase? then
      if |tokens| == 1 then Some([tokens[0].text])
      else if |tokens| >= 3 && tokens[1] == Bareword("AND") then
        match Conjunction(tokens[2..])
        case None => None
        case Some(more) => Some([tokens[0].text] + more)
      else None
    else None
  }

  function ParseFts(s: string): Option<seq<string>> {
    match Lex(s)
    case None => None
    case Some(tokens) => Conjunction(tokens)
  }

  lemma {:induction false} PhraseBodyOf(term: string, rest: string)
    requires rest == [] || rest[0] != '"'
    ensures PhraseBody(Replace(term, '"', "\"\"") + "\"" + rest) == Some(Scanned(term, rest))
  {
    var body := Replace(term, '"', "\"\"") + "\"" + rest;
    if term == [] {
      assert body == "\"" + rest;
      assert body[1..] == rest;
    } else {
      var more := Replace(term[1..], '"', "\"\"") + "\"" + rest;
      PhraseBodyOf(term[1..], rest);
      assert [term[0]] + term[1..] == term;
      if term[0] == '"' {
        assert body == "\"\"" + more;
        assert body[2..] == more;
      } else {
        assert body == [term[0]] + more;
        assert body[1..] == more;
      }
    }
  }

  lemma LexQuoted(term: string, rest: string)
    requires rest == [] || rest[0] != '"'
    ensures Lex(Quoted(term) + rest) == Prepend(Phrase(term), Lex(rest))
  {
    var line := Quoted(term) + rest;
    assert line[0] == '"';
    assert line[1..] == Replace(term, '"', "\"\"") + "\"" + rest;
    PhraseBodyOf(term, rest);
  }

  lemma LexAnd(rest: string)
    ensures Lex(" AND " + rest) == Prepend(Bareword("AND"), Lex(rest))
  {
    var line := " AND " + rest;
    var tail := " " + rest;
    assert line[1..] == "AND" + tail;
    assert ("AND" + tail)[1..] == "ND" + tail;
    assert ("ND" + tail)[1..] == "D" + tail;
    assert ("D" + tail)[1..] == tail;
    assert BarewordBody(tail) == Scanned([], tail);
    assert BarewordBody("D" + tail) == Scanned("D", tail);
    assert BarewordBody("ND" + tail) == Scanned("ND", tail);
    assert tail[1..] == rest;
    assert Lex(tail) == Lex(rest);
    assert ['A'] + "ND" == "AND";
  }

  function AndTokens(terms: seq<string>): seq<Token> {
    if terms == [] then []
    else if |terms| == 1 then [Phrase(terms[0])]
    else [Phrase(terms[0]), Bareword("AND")] + AndTokens(terms[1..])
  }

  lemma {:induction false} LexTerms(terms: seq<string>)
    ensures Lex(Join(QuoteAll(terms), " AND ")) == Some(AndTokens(terms))
  {
    if |terms| == 1 {
      assert QuoteAll(terms) == [Quoted(terms[0])];
      assert Quoted(terms[0]) + [] == Quoted(terms[0]);
      LexQuoted(terms[0], []);
      assert [Phrase(terms[0])] + [] == AndTokens(terms);
    } else if |terms| > 1 {
      var more := Join(QuoteAll(terms[1..]), " AND ");
      LexTerms(terms[1..]);
      assert QuoteAll(terms)[1..] == QuoteAll(terms[1..]);
      assert Join(QuoteAll(terms), " AND ") == Quoted(terms[0]) + (" AND " + more);
      LexQuoted(terms[0], " AND " + more);
      LexAnd(more);
      var tokens := AndTokens(terms[1..]);
      assert [Phrase(terms[0])] + ([Bareword("AND")] + tokens) == AndTokens(terms);
    }
  }

  lemma {:induction false} ConjunctionOf(terms: seq<string>)
    ensures Conjunction(AndTokens(terms)) == Some(terms)
  {
    if |terms| == 1 {
      assert [terms[0]] == terms;
    } else if |terms| > 1 {
      ConjunctionOf(terms[1..]);
      assert AndTokens(terms)[2..] == AndTokens(terms[1..]);
      assert terms == [terms[0]] + terms[1..];
    }
  }

  /** FTS5 reads the built query back as the conjunction of exactly the query's words. */
  lemma FtsQueryRoundTrip(query: string)
    ensures ParseFts(BuildFtsQuery(query)) == Some(Words(query))
  {
    LexTerms(Words(query));
    ConjunctionOf(Words(query));
  }
}
