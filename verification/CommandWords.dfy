/**
 What a command line means, read as words: pieces that stand for themselves, escaped characters and quoted text.
 Every input is such words, up to an escape or a quote that is left open, and the splitter returns their meanings.
 */
module CommandWords {
  import opened Text
  import opened CommandLine

  /** A character in quotes: itself, or after a backslash. */
  datatype Unit = Plain(c: char) | Marked(c: char)

  datatype Piece = Bare(c: char) | Escaped(c: char) | Quoted(quote: char, body: seq<Unit>)

  /** A word and the white space before it. */
  datatype Spaced = Spaced(gap: string, word: seq<Piece>)

  datatype Open = Open(quote: char, body: seq<Unit>)

  /** Finished words, and what comes after them: white space, a word under way, a quote or an escape left open. */
  datatype Parse = Parse(words: seq<Spaced>, gap: string, word: seq<Piece>, open: Option<Open>, escaping: bool)

  predicate IsQuote(c: char) { c == '\'' || c == '"' }

  // ---- what may be written ----

  predicate GoodUnit(quote: char, u: Unit) { u.Plain? ==> u.c != quote && u.c != '\\' }

  predicate GoodBody(quote: char, body: seq<Unit>) {
    IsQuote(quote) && forall i :: 0 <= i < |body| ==> GoodUnit(quote, body[i])
  }

  predicate GoodPiece(p: Piece) {
    match p
    case Bare(c) => !IsSpace(c) && !IsQuote(c) && c != '\\'
    case Escaped(_) => true
    case Quoted(quote, body) => GoodBody(quote, body)
  }

  predicate GoodWord(word: seq<Piece>) { forall i :: 0 <= i < |word| ==> GoodPiece(word[i]) }

  predicate AllSpace(s: string) { forall i :: 0 <= i < |s| ==> IsSpace(s[i]) }

  predicate GoodSpaced(w: Spaced, first: bool) {
    AllSpace(w.gap) && (first || w.gap != "") && w.word != [] && GoodWord(w.word)
  }

  predicate Started(p: Parse) { p.word != [] || p.open.Some? || p.escaping }

  predicate Good(p: Parse) {
    (forall i :: 0 <= i < |p.words| ==> GoodSpaced(p.words[i], i == 0)) && AllSpace(p.gap) && GoodWord(p.word) &&
    (p.words != [] ==> p.gap != "") && (p.open.Some? ==> GoodBody(p.open.value.quote, p.open.value.body))
  }

  // ---- how it is written ----

  function UnitsText(body: seq<Unit>): string {
    if body == [] then ""
    else UnitsText(body[..|body| - 1]) + (match body[|body| - 1] case Plain(c) => [c] case Marked(c) => ['\\', c])
  }

  function PieceText(p: Piece): string {
    match p
    case Bare(c) => [c]
    case Escaped(c) => ['\\', c]
    case Quoted(quote, body) => [quote] + UnitsText(body) + [quote]
  }

  function WordText(word: seq<Piece>): string {
    if word == [] then "" else WordText(word[..|word| - 1]) + PieceText(word[|word| - 1])
  }

  function WordsText(words: seq<Spaced>): string {
    if words == [] then ""
    else
      var w := words[|words| - 1];
      WordsText(words[..|words| - 1]) + w.gap + WordText(w.word)
  }

  function OpenText(open: Option<Open>): string {
    if open.None? then "" else [open.value.quote] + UnitsText(open.value.body)
  }

  function ParseText(p: Parse): string {
    WordsText(p.words) + p.gap + WordText(p.word) + OpenText(p.open) + if p.escaping then "\\" else ""
  }

  // ---- what it means ----

  function UnitsMeaning(body: seq<Unit>): (s: string)
    ensures |s| == |body| && forall i :: 0 <= i < |s| ==> s[i] == body[i].c
  {
    seq(|body|, i requires 0 <= i < |body| => body[i].c)
  }

  function PieceMeaning(p: Piece): string {
    match p
    case Bare(c) => [c]
    case Escaped(c) => [c]
    case Quoted(_, body) => UnitsMeaning(body)
  }

  function WordMeaning(word: seq<Piece>): string {
    if word == [] then "" else WordMeaning(word[..|word| - 1]) + PieceMeaning(word[|word| - 1])
  }

  function Meanings(words: seq<Spaced>): (ms: seq<string>)
    ensures |ms| == |words| && forall i :: 0 <= i < |ms| ==> ms[i] == WordMeaning(words[i].word)
  {
    seq(|words|, i requires 0 <= i < |words| => WordMeaning(words[i].word))
  }

  function OpenMeaning(open: Option<Open>): string {
    if open.None? then "" else UnitsMeaning(open.value.body)
  }

  /** An open escape or quote is an error; otherwise the words are read, with one that ends the line. */
  function Read(p: Parse): Result {
    if p.escaping then UnfinishedEscape
    else if p.open.Some? then UnfinishedQuote
    else Tokens(Meanings(p.words) + if p.word == [] then [] else [WordMeaning(p.word)])
  }

  // ---- the splitter reads it ----

  /** The loop variables after this much of the input. */
  function State(p: Parse): Scan {
    Scan(Meanings(p.words), WordMeaning(p.word) + OpenMeaning(p.open),
         if p.open.Some? then Some(p.open.value.quote) else None, p.escaping, Started(p))
  }

  /** One more character. */
  function Next(p: Parse, c: char): Parse {
    if p.escaping then
      if p.open.Some? then p.(open := Some(p.open.value.(body := p.open.value.body + [Marked(c)])), escaping := false)
      else p.(word := p.word + [Escaped(c)], escaping := false)
    else if c == '\\' then p.(escaping := true)
    else if p.open.Some? then
      if c == p.open.value.quote then p.(word := p.word + [Quoted(c, p.open.value.body)], open := None)
      else p.(open := Some(p.open.value.(body := p.open.value.body + [Plain(c)])))
    else if IsQuote(c) then p.(open := Some(Open(c, [])))
    else if IsSpace(c) then
      if Started(p) then p.(words := p.words + [Spaced(p.gap, p.word)], gap := [c], word := [])
      else p.(gap := p.gap + [c])
    else p.(word := p.word + [Bare(c)])
  }

  lemma NextGood(p: Parse, c: char)
    requires Good(p)
    ensures Good(Next(p, c))
  {}

  lemma WordPush(word: seq<Piece>, piece: Piece)
    ensures WordText(word + [piece]) == WordText(word) + PieceText(piece)
    ensures WordMeaning(word + [piece]) == WordMeaning(word) + PieceMeaning(piece)
  {
    assert (word + [piece])[..|word|] == word;
  }

  lemma UnitsPush(body: seq<Unit>, u: Unit)
    ensures UnitsText(body + [u]) == UnitsText(body) + (match u case Plain(c) => [c] case Marked(c) => ['\\', c])
    ensures UnitsMeaning(body + [u]) == UnitsMeaning(body) + [u.c]
  {
    assert (body + [u])[..|body|] == body;
  }

  lemma WordsPush(words: seq<Spaced>, w: Spaced)
    ensures WordsText(words + [w]) == WordsText(words) + w.gap + WordText(w.word)
    ensures Meanings(words + [w]) == Meanings(words) + [WordMeaning(w.word)]
  {
    assert (words + [w])[..|words|] == words;
  }

  lemma InOpen(b: string, o: string, t: string, e: string, c: char)
    requires t == e + [c]
    ensures b + (o + t) + "" == b + o + e + [c]
  {}

  lemma InWord(b: string, x: string, t: string, e: string, c: char)
    requires t == e + [c]
    ensures b + (x + t) + "" + "" == b + x + "" + e + [c]
  {}

  lemma AtQuote(b: string, x: string, u: string, c: char)
    ensures b + (x + ([c] + u + [c])) + "" + "" == b + x + ([c] + u) + "" + [c]
    ensures b + x + ([c] + "") + "" == b + x + "" + "" + [c]
  {}

  lemma AtSpace(w: string, g: string, x: string, c: char)
    ensures (w + g + x) + [c] + "" + "" + "" == w + g + x + "" + "" + [c]
    ensures w + (g + [c]) + "" + "" + "" == w + g + "" + "" + "" + [c]
  {}

  lemma InOpenText(p: Parse, u: Unit, c: char)
    requires p.open.Some? && u == if p.escaping then Marked(c) else Plain(c)
    ensures ParseText(p.(open := Some(p.open.value.(body := p.open.value.body + [u])), escaping := false)) ==
            ParseText(p) + [c]
  {
    var body := p.open.value.body;
    UnitsPush(body, u);
    var o, t := [p.open.value.quote] + UnitsText(body), if p.escaping then ['\\', c] else [c];
    assert [p.open.value.quote] + UnitsText(body + [u]) == o + t;
    InOpen(WordsText(p.words) + p.gap + WordText(p.word), o, t, if p.escaping then "\\" else "", c);
  }

  lemma InWordText(p: Parse, piece: Piece, c: char)
    requires p.open.None? && piece == if p.escaping then Escaped(c) else Bare(c)
    ensures ParseText(p.(word := p.word + [piece], escaping := false)) == ParseText(p) + [c]
  {
    WordPush(p.word, piece);
    InWord(WordsText(p.words) + p.gap, WordText(p.word), PieceText(piece), if p.escaping then "\\" else "", c);
  }

  lemma AtQuoteText(p: Parse, c: char)
    requires !p.escaping && IsQuote(c) && (p.open.Some? ==> p.open.value.quote == c)
    ensures p.open.None? ==> ParseText(p.(open := Some(Open(c, [])))) == ParseText(p) + [c]
    ensures p.open.Some? ==>
              ParseText(p.(word := p.word + [Quoted(c, p.open.value.body)], open := None)) == ParseText(p) + [c]
  {
    var b, x := WordsText(p.words) + p.gap, WordText(p.word);
    if p.open.None? {
      AtQuote(b, x, "", c);
    } else {
      WordPush(p.word, Quoted(c, p.open.value.body));
      AtQuote(b, x, UnitsText(p.open.value.body), c);
    }
  }

  lemma AtSpaceText(p: Parse, c: char)
    requires !p.escaping && p.open.None?
    ensures ParseText(p.(words := p.words + [Spaced(p.gap, p.word)], gap := [c], word := [])) == ParseText(p) + [c]
    ensures p.word == [] ==> ParseText(p.(gap := p.gap + [c])) == ParseText(p) + [c]
  {
    WordsPush(p.words, Spaced(p.gap, p.word));
    AtSpace(WordsText(p.words), p.gap, WordText(p.word), c);
  }

  /** The character is written down where it belongs. */
  lemma NextText(p: Parse, c: char)
    requires Good(p)
    ensures ParseText(Next(p, c)) == ParseText(p) + [c]
  {
    if p.open.Some? && (p.escaping || (c != '\\' && c != p.open.value.quote)) {
      InOpenText(p, if p.escaping then Marked(c) else Plain(c), c);
    } else if p.escaping {
      InWordText(p, Escaped(c), c);
    } else if c == '\\' {
    } else if p.open.Some? || IsQuote(c) {
      AtQuoteText(p, c);
    } else if IsSpace(c) {
      AtSpaceText(p, c);
    } else {
      InWordText(p, Bare(c), c);
    }
  }

  lemma InOpenState(p: Parse, u: Unit)
    requires p.open.Some?
    ensures State(p.(open := Some(p.open.value.(body := p.open.value.body + [u])), escaping := false)) ==
            State(p).(current := State(p).current + [u.c], escaping := false, started := true)
  {
    var body := p.open.value.body;
    UnitsPush(body, u);
    assert WordMeaning(p.word) + (UnitsMeaning(body) + [u.c]) == (WordMeaning(p.word) + UnitsMeaning(body)) + [u.c];
  }

  lemma InWordState(p: Parse, piece: Piece)
    requires p.open.None? && !piece.Quoted?
    ensures State(p.(word := p.word + [piece], escaping := false)) ==
            State(p).(current := State(p).current + [piece.c], escaping := false, started := true)
  {
    WordPush(p.word, piece);
    NoneOpen(p);
    NoneOpen(p.(word := p.word + [piece], escaping := false));
  }

  lemma NoneOpen(p: Parse)
    requires p.open.None?
    ensures State(p).current == WordMeaning(p.word)
  {
    assert WordMeaning(p.word) + "" == WordMeaning(p.word);
  }

  lemma AtQuoteState(p: Parse, c: char)
    requires !p.escaping
    ensures p.open.None? ==> State(p.(open := Some(Open(c, [])))) == State(p).(quote := Some(c), started := true)
    ensures p.open.Some? ==>
              State(p.(word := p.word + [Quoted(c, p.open.value.body)], open := None)) ==
              State(p).(quote := None, started := true)
  {
    if p.open.None? {
      assert UnitsMeaning([]) == "";
    } else {
      var piece := Quoted(c, p.open.value.body);
      WordPush(p.word, piece);
      assert WordMeaning(p.word + [piece]) + "" == WordMeaning(p.word) + UnitsMeaning(p.open.value.body);
    }
  }

  lemma AtSpaceState(p: Parse, c: char)
    requires !p.escaping && p.open.None?
    ensures State(p.(words := p.words + [Spaced(p.gap, p.word)], gap := [c], word := [])) ==
            State(p).(tokens := State(p).tokens + [State(p).current], current := "", started := false)
    ensures State(p.(gap := p.gap + [c])) == State(p)
  {
    WordsPush(p.words, Spaced(p.gap, p.word));
    assert WordMeaning(p.word) + "" == WordMeaning(p.word);
  }

  /** The loop does with the character what its place in the words means. */
  lemma NextState(p: Parse, c: char)
    requires Good(p)
    ensures Step(State(p), c) == State(Next(p, c))
  {
    if p.open.Some? && (p.escaping || (c != '\\' && c != p.open.value.quote)) {
      InOpenState(p, if p.escaping then Marked(c) else Plain(c));
    } else if p.escaping {
      InWordState(p, Escaped(c));
    } else if c == '\\' {
    } else if p.open.Some? || IsQuote(c) {
      AtQuoteState(p, c);
    } else if IsSpace(c) {
      AtSpaceState(p, c);
    } else {
      InWordState(p, Bare(c));
    }
  }

  lemma ScanPush(input: string, c: char)
    ensures ScanAll(INITIAL, input + [c]) == Step(ScanAll(INITIAL, input), c)
  {
    ScanAppend(INITIAL, input, [c]);
    assert [c][1..] == "";
  }

  lemma {:induction false} Reads(input: string) returns (p: Parse)
    ensures Good(p) && ParseText(p) == input && ScanAll(INITIAL, input) == State(p)
    decreases |input|
  {
    if input == "" {
      p := Parse([], "", [], None, false);
    } else {
      var init, c := input[..|input| - 1], input[|input| - 1];
      assert input == init + [c];
      var before := Reads(init);
      p := ReadsNext(before, init, c);
    }
  }

  lemma ReadsNext(before: Parse, init: string, c: char) returns (p: Parse)
    requires Good(before) && ParseText(before) == init && ScanAll(INITIAL, init) == State(before)
    ensures Good(p) && ParseText(p) == init + [c] && ScanAll(INITIAL, init + [c]) == State(p)
  {
    NextGood(before, c);
    NextText(before, c);
    NextState(before, c);
    ScanPush(init, c);
    p := Next(before, c);
  }

  /**
   Every input is written as words, white space and at most one thing left open; the splitter returns exactly the
   meanings of the words, or the error for what is left open.
   */
  lemma SplitMeans(input: string) returns (p: Parse)
    ensures Good(p) && ParseText(p) == input && Finish(ScanAll(INITIAL, input)) == Read(p)
  {
    p := Reads(input);
    assert OpenMeaning(None) == "" && WordMeaning(p.word) + "" == WordMeaning(p.word);
    assert Meanings(p.words) + [] == Meanings(p.words);
  }
}
