/** The one-pass scanner that finds the include directives of the http context in a dump of the
    nginx configuration. `lower` is strings.ToLower. */
module NginxScanner {
  import opened Json

  // ----- words of a statement -----

  /** strings.Fields, with the word that is being read. */
  function FieldsFrom(s: string, word: string): seq<string>
    decreases |s|
  {
    if s == [] then (if word == [] then [] else [word])
    else if IsSpace(s[0]) then (if word == [] then [] else [word]) + FieldsFrom(s[1..], [])
    else FieldsFrom(s[1..], word + [s[0]])
  }

  function Fields(s: string): seq<string>
  {
    FieldsFrom(s, [])
  }

  lemma {:induction false} FieldsTrailing(s: string, spaces: string, word: string)
    requires AllSpace(spaces)
    ensures FieldsFrom(s + spaces, word) == FieldsFrom(s, word)
    decreases |s|
  {
    if s == [] {
      assert s + spaces == spaces && spaces + [] == spaces;
      FieldsSpaces(spaces, [], word);
    } else {
      assert (s + spaces)[1..] == s[1..] + spaces;
      FieldsTrailing(s[1..], spaces, if IsSpace(s[0]) then [] else word + [s[0]]);
    }
  }

  lemma {:induction false} FieldsTrimLeft(s: string)
    ensures Fields(TrimLeft(s)) == Fields(s)
    decreases |s|
  {
    if s != [] && IsSpace(s[0]) {
      FieldsTrimLeft(s[1..]);
    }
  }

  lemma {:induction false} FieldsTrimRight(s: string)
    ensures Fields(TrimRight(s)) == Fields(s)
    decreases |s|
  {
    if s != [] && IsSpace(s[|s| - 1]) {
      var init := s[..|s| - 1];
      assert s == init + [s[|s| - 1]];
      FieldsTrailing(init, [s[|s| - 1]], []);
      FieldsTrimRight(init);
    }
  }

  /** Trimming a statement first does not change its words. */
  lemma FieldsOfTrimmed(s: string)
    ensures Fields(TrimSpace(s)) == Fields(s)
  {
    FieldsTrimLeft(s);
    FieldsTrimRight(TrimLeft(s));
  }

  predicate IsQuote(c: char)
  {
    c == '\'' || c == '"'
  }

  function TrimQuotes(s: string): string
    decreases |s|
  {
    if s == [] then s
    else if IsQuote(s[0]) then TrimQuotes(s[1..])
    else if IsQuote(s[|s| - 1]) then TrimQuotes(s[..|s| - 1])
    else s
  }

  /** The quotes at both ends go, as many as there are, and nothing else. */
  lemma {:induction false} TrimQuotesMeans(s: string) returns (n: nat, m: nat)
    ensures n <= m <= |s| && TrimQuotes(s) == s[n..m]
    ensures forall i :: 0 <= i < |s| && (i < n || m <= i) ==> s[i] == '\'' || s[i] == '"'
    ensures n < m ==> s[n] !in {'\'', '"'} && s[m - 1] !in {'\'', '"'}
    decreases |s|
  {
    n, m := 0, |s|;
    if s != [] && IsQuote(s[0]) {
      n, m := TrimQuotesMeans(s[1..]);
      n, m := n + 1, m + 1;
    } else if s != [] && IsQuote(s[|s| - 1]) {
      n, m := TrimQuotesMeans(s[..|s| - 1]);
    }
  }

  lemma {:induction false} TrimQuotesLast(s: string, q: char)
    requires IsQuote(q)
    ensures TrimQuotes(s + [q]) == TrimQuotes(s)
    decreases |s|
  {
    if s != [] && IsQuote(s[0]) {
      assert (s + [q])[1..] == s[1..] + [q];
      TrimQuotesLast(s[1..], q);
    } else {
      assert (s + [q])[..|s|] == s;
      assert s == [] ==> (s + [q])[1..] == [];
    }
  }

  // ----- the scanner -----

  datatype Scan = Scan(statement: string, contexts: seq<string>, inComment: bool, quote: Option<char>, includes: seq<string>)

  const START := Scan("", [], false, None, [])

  function ContextOf(statement: string, lower: string -> string): string
  {
    var fields := Fields(statement);
    if |fields| > 0 then lower(fields[0]) else ""
  }

  function Included(statement: string, contexts: seq<string>, lower: string -> string): seq<string>
  {
    var fields := Fields(statement);
    if "http" in contexts && |fields| >= 2 && lower(fields[0]) == "include" then [TrimQuotes(fields[1])] else []
  }

  function Step(s: Scan, c: char, lower: string -> string): Scan
  {
    if s.inComment then
      if c == '\n' then s.(inComment := false, statement := s.statement + " ") else s
    else if s.quote.Some? then
      s.(statement := s.statement + [c], quote := if Some(c) == s.quote then None else s.quote)
    else if c == '#' then s.(inComment := true)
    else if IsQuote(c) then s.(quote := Some(c), statement := s.statement + [c])
    else if c == '{' then s.(contexts := s.contexts + [ContextOf(s.statement, lower)], statement := "")
    else if c == '}' then
      s.(statement := "", contexts := if s.contexts == [] then [] else s.contexts[..|s.contexts| - 1])
    else if c == ';' then
      s.(includes := s.includes + Included(s.statement, s.contexts, lower), statement := "")
    else s.(statement := s.statement + [c])
  }

  function ScanAll(s: Scan, text: string, lower: string -> string): Scan
  {
    if text == [] then s else Step(ScanAll(s, text[..|text| - 1], lower), text[|text| - 1], lower)
  }

  method HttpIncludePatterns(dump: string, lower: string -> string) returns (includes: seq<string>)
    ensures includes == ScanAll(START, dump, lower).includes
  {
    includes := [];
    var statement: string := "";
    var contexts: seq<string> := [];
    var inComment := false;
    var quote: Option<char> := None;
    assert dump[..0] == [];
    for n := 0 to |dump|
      invariant ScanAll(START, dump[..n], lower) == Scan(statement, contexts, inComment, quote, includes)
    {
      assert dump[..n + 1][..n] == dump[..n];
      var char_ := dump[n];
      if inComment {
        if char_ == '\n' {
          inComment := false;
          statement := statement + " ";
        }
        continue;
      }
      if quote.Some? {
        statement := statement + [char_];
        if char_ == quote.value {
          quote := None;
        }
        continue;
      }
      if char_ == '#' {
        inComment := true;
      } else if IsQuote(char_) {
        quote := Some(char_);
        statement := statement + [char_];
      } else if char_ == '{' {
        FieldsOfTrimmed(statement);
        var fields := Fields(TrimSpace(statement));
        statement := "";
        contexts := contexts + [if |fields| > 0 then lower(fields[0]) else ""];
      } else if char_ == '}' {
        statement := "";
        if |contexts| > 0 {
          contexts := contexts[..|contexts| - 1];
        }
      } else if char_ == ';' {
        FieldsOfTrimmed(statement);
        var fields := Fields(TrimSpace(statement));
        statement := "";
        if "http" in contexts && |fields| >= 2 && lower(fields[0]) == "include" {
          includes := includes + [TrimQuotes(fields[1])];
        }
      } else {
        statement := statement + [char_];
      }
    }
    assert dump[..|dump|] == dump;
  }

  // ----- configurations and how they may be printed -----

  /** What may stand between two items: spaces and comments. */
  datatype Filler = Blank(c: char) | Comment(text: string)

  /** A word, with the quotes around it if there are any, and what stands after it. */
  datatype Word = Word(text: string, quote: Option<char>, after: seq<Filler>)

  datatype Tree =
    | End(gap: seq<Filler>)
    | Directive(gap: seq<Filler>, words: seq<Word>, rest: Tree)
    | Block(gap: seq<Filler>, words: seq<Word>, body: Tree, rest: Tree)

  predicate PlainChar(c: char)
  {
    !IsSpace(c) && !IsQuote(c) && c != '#' && c != '{' && c != '}' && c != ';'
  }

  predicate Plain(word: string)
  {
    word != [] && forall i :: 0 <= i < |word| ==> PlainChar(word[i])
  }

  predicate AllSpace(s: string)
  {
    forall i :: 0 <= i < |s| ==> IsSpace(s[i])
  }

  predicate GoodFiller(f: Filler)
  {
    match f
    case Blank(c) => IsSpace(c)
    case Comment(text) => '\n' !in text
  }

  predicate GoodGap(gap: seq<Filler>)
  {
    forall i :: 0 <= i < |gap| ==> GoodFiller(gap[i])
  }

  /** A plain word, or a quoted one that may hold special characters, but no space and not its quote. */
  predicate GoodWord(w: Word)
  {
    && GoodGap(w.after)
    && match w.quote
       case None => Plain(w.text)
       case Some(q) => (q == '\'' || q == '"') && forall i :: 0 <= i < |w.text| ==> !IsSpace(w.text[i]) && w.text[i] != q
  }

  /** Good words, with a space or a comment at least between any two. */
  predicate GoodWords(words: seq<Word>)
  {
    && (forall i :: 0 <= i < |words| ==> GoodWord(words[i]))
    && (forall i :: 0 <= i < |words| - 1 ==> words[i].after != [])
  }

  predicate Good(t: Tree)
  {
    GoodGap(t.gap) &&
    match t
    case End(_) => true
    case Directive(_, words, rest) => GoodWords(words) && Good(rest)
    case Block(_, words, body, rest) => GoodWords(words) && Good(body) && Good(rest)
  }

  function PrintFiller(f: Filler): string
  {
    match f
    case Blank(c) => [c]
    case Comment(text) => "#" + text + "\n"
  }

  function PrintGap(gap: seq<Filler>): string
  {
    if gap == [] then [] else PrintGap(gap[..|gap| - 1]) + PrintFiller(gap[|gap| - 1])
  }

  function Shown(w: Word): string
  {
    match w.quote
    case None => w.text
    case Some(q) => [q] + w.text + [q]
  }

  function PrintWords(words: seq<Word>): string
  {
    if words == [] then [] else Shown(words[0]) + PrintGap(words[0].after) + PrintWords(words[1..])
  }

  function Print(t: Tree): string
  {
    PrintGap(t.gap) +
    match t
    case End(_) => []
    case Directive(_, words, rest) => PrintWords(words) + ";" + Print(rest)
    case Block(_, words, body, rest) => PrintWords(words) + "{" + Print(body) + "}" + Print(rest)
  }

  function Texts(words: seq<Word>): seq<string>
  {
    if words == [] then [] else [Shown(words[0])] + Texts(words[1..])
  }

  /** The first arguments of the include directives with an http block around them, in order and
      without the quotes around them. */
  function HttpIncludes(t: Tree, inHttp: bool, lower: string -> string): seq<string>
  {
    match t
    case End(_) => []
    case Directive(_, words, rest) =>
      (if inHttp && |words| >= 2 && lower(Shown(words[0])) == "include" then [TrimQuotes(words[1].text)] else [])
      + HttpIncludes(rest, inHttp, lower)
    case Block(_, words, body, rest) =>
      HttpIncludes(body, inHttp || (words != [] && lower(Shown(words[0])) == "http"), lower) + HttpIncludes(rest, inHttp, lower)
  }

  // ----- scanning what has been printed -----

  lemma {:induction false} ScanSplit(s: Scan, a: string, b: string, lower: string -> string)
    ensures ScanAll(s, a + b, lower) == ScanAll(ScanAll(s, a, lower), b, lower)
  {
    if b == [] {
      assert a + b == a;
    } else {
      assert (a + b)[..|a + b| - 1] == a + b[..|b| - 1];
      ScanSplit(s, a, b[..|b| - 1], lower);
    }
  }

  predicate Ready(s: Scan)
  {
    !s.inComment && s.quote.None?
  }

  lemma ScanOne(s: Scan, c: char, lower: string -> string)
    ensures ScanAll(s, [c], lower) == Step(s, c, lower)
  {
    assert [c][..0] == [];
  }

  /** Text without any special character is taken as it is. */
  lemma {:induction false} ScanText(s: Scan, text: string, lower: string -> string)
    requires Ready(s) && forall i :: 0 <= i < |text| ==> IsSpace(text[i]) || PlainChar(text[i])
    ensures ScanAll(s, text, lower) == s.(statement := s.statement + text)
  {
    if text == [] {
      assert s.statement + text == s.statement;
    } else {
      var init := text[..|text| - 1];
      ScanText(s, init, lower);
      assert s.statement + text == s.statement + init + [text[|text| - 1]];
    }
  }

  lemma {:induction false} ScanComment(s: Scan, text: string, lower: string -> string)
    requires s.inComment && '\n' !in text
    ensures ScanAll(s, text, lower) == s
  {
    if text != [] {
      assert forall c :: c in text[..|text| - 1] ==> c in text;
      ScanComment(s, text[..|text| - 1], lower);
      assert text[|text| - 1] in text;
    }
  }

  lemma ScanFiller(s: Scan, f: Filler, lower: string -> string)
    requires Ready(s) && GoodFiller(f)
    ensures ScanAll(s, PrintFiller(f), lower) == s.(statement := s.statement + if f.Blank? then [f.c] else " ")
  {
    if f.Blank? {
      ScanText(s, [f.c], lower);
    } else {
      ScanSplit(s, "#" + f.text, "\n", lower);
      ScanSplit(s, "#", f.text, lower);
      ScanOne(s, '#', lower);
      ScanComment(Step(s, '#', lower), f.text, lower);
      ScanOne(Step(s, '#', lower), '\n', lower);
    }
  }

  /** What the scanner makes of a gap: a comment counts as a space. */
  function Spaces(gap: seq<Filler>): string
  {
    if gap == [] then [] else Spaces(gap[..|gap| - 1]) + [if gap[|gap| - 1].Blank? then gap[|gap| - 1].c else ' ']
  }

  lemma {:induction false} SpacesOf(gap: seq<Filler>)
    requires GoodGap(gap)
    ensures AllSpace(Spaces(gap)) && |Spaces(gap)| == |gap|
  {
    if gap != [] {
      SpacesOf(gap[..|gap| - 1]);
      assert GoodFiller(gap[|gap| - 1]);
    }
  }

  lemma {:induction false} ScanGap(s: Scan, gap: seq<Filler>, lower: string -> string)
    requires Ready(s) && GoodGap(gap)
    ensures ScanAll(s, PrintGap(gap), lower) == s.(statement := s.statement + Spaces(gap))
  {
    if gap == [] {
      assert s.statement + [] == s.statement;
    } else {
      var init, last := gap[..|gap| - 1], gap[|gap| - 1];
      ScanGap(s, init, lower);
      ScanSplit(s, PrintGap(init), PrintFiller(last), lower);
      ScanFiller(s.(statement := s.statement + Spaces(init)), last, lower);
      assert s.statement + Spaces(init) + [if last.Blank? then last.c else ' '] == s.statement + Spaces(gap);
    }
  }

  lemma {:induction false} ScanQuoted(s: Scan, text: string, lower: string -> string)
    requires !s.inComment && s.quote.Some? && s.quote.value !in text
    ensures ScanAll(s, text, lower) == s.(statement := s.statement + text)
  {
    if text == [] {
      assert s.statement + text == s.statement;
    } else {
      var init := text[..|text| - 1];
      ScanQuoted(s, init, lower);
      assert s.statement + text == s.statement + init + [text[|text| - 1]];
    }
  }

  /** A word is taken as it is, whatever stands between its quotes. */
  lemma ScanWord(s: Scan, w: Word, lower: string -> string)
    requires Ready(s) && GoodWord(w)
    ensures ScanAll(s, Shown(w), lower) == s.(statement := s.statement + Shown(w))
  {
    match w.quote
    case None => ScanText(s, w.text, lower);
    case Some(q) =>
      var inside := Step(s, q, lower);
      ScanThrough(s, [], q, w.text + [q], lower);
      assert [] + [q] + (w.text + [q]) == Shown(w);
      ScanSplit(inside, w.text, [q], lower);
      ScanQuoted(inside, w.text, lower);
      ScanOne(ScanAll(inside, w.text, lower), q, lower);
      assert s.statement + [q] + w.text + [q] == s.statement + Shown(w);
  }

  /** Reading spaces ends a word, and more of them change nothing. */
  lemma {:induction false} FieldsSpaces(spaces: string, s: string, word: string)
    requires AllSpace(spaces)
    ensures spaces != [] || word == [] ==>
              FieldsFrom(spaces + s, word) == (if word == [] then [] else [word]) + FieldsFrom(s, [])
  {
    if spaces == [] {
      assert spaces + s == s;
    } else {
      assert (spaces + s)[1..] == spaces[1..] + s;
      FieldsSpaces(spaces[1..], s, []);
    }
  }

  lemma {:induction false} FieldsWord(text: string, s: string, word: string)
    requires forall i :: 0 <= i < |text| ==> !IsSpace(text[i])
    ensures FieldsFrom(text + s, word) == FieldsFrom(s, word + text)
    decreases |text|
  {
    if text == [] {
      assert text + s == s && word + text == word;
    } else {
      assert (text + s)[1..] == text[1..] + s;
      assert word + [text[0]] + text[1..] == word + text;
      FieldsWord(text[1..], s, word + [text[0]]);
    }
  }

  /** Words and the spaces behind them, one after the other. */
  function Spaced(words: seq<string>, gaps: seq<string>): string
    requires |gaps| == |words|
  {
    if words == [] then [] else words[0] + gaps[0] + Spaced(words[1..], gaps[1..])
  }

  predicate Separate(words: seq<string>, gaps: seq<string>)
    requires |gaps| == |words|
  {
    && (forall i :: 0 <= i < |words| ==> words[i] != [] && AllSpace(gaps[i]))
    && (forall i :: 0 <= i < |words| ==> forall k :: 0 <= k < |words[i]| ==> !IsSpace(words[i][k]))
    && (forall i :: 0 <= i < |words| - 1 ==> gaps[i] != [])
  }

  /** Splitting words that spaces separate gives the words. */
  lemma {:induction false} FieldsOfWords(words: seq<string>, gaps: seq<string>)
    requires |gaps| == |words| && Separate(words, gaps)
    ensures Fields(Spaced(words, gaps)) == words
  {
    if words != [] {
      var rest := Spaced(words[1..], gaps[1..]);
      assert Spaced(words, gaps) == words[0] + (gaps[0] + rest);
      FieldsWord(words[0], gaps[0] + rest, []);
      assert [] + words[0] == words[0];
      if gaps[0] == [] {
        assert |words| == 1 && rest == [] && gaps[0] + rest == [];
      } else {
        FieldsSpaces(gaps[0], rest, words[0]);
        FieldsOfWords(words[1..], gaps[1..]);
      }
    }
  }

  lemma FieldsOfStatement(spaces: string, words: seq<string>, gaps: seq<string>)
    requires AllSpace(spaces) && |gaps| == |words| && Separate(words, gaps)
    ensures Fields(spaces + Spaced(words, gaps)) == words
  {
    FieldsSpaces(spaces, Spaced(words, gaps), []);
    FieldsOfWords(words, gaps);
  }

  lemma ShownWord(w: Word)
    requires GoodWord(w)
    ensures Shown(w) != [] && (forall k :: 0 <= k < |Shown(w)| ==> !IsSpace(Shown(w)[k]))
  {
    if w.quote.None? {
      assert forall k :: 0 <= k < |w.text| ==> PlainChar(w.text[k]);
    }
  }

  /** Printed words leave themselves in the statement, with spaces for what stands between them. */
  lemma {:induction false} ScanWords(s: Scan, words: seq<Word>, lower: string -> string) returns (gaps: seq<string>)
    requires Ready(s) && GoodWords(words)
    ensures |gaps| == |Texts(words)| && Separate(Texts(words), gaps)
    ensures ScanAll(s, PrintWords(words), lower) == s.(statement := s.statement + Spaced(Texts(words), gaps))
    decreases words
  {
    gaps := [];
    if words == [] {
      assert s.statement + [] == s.statement;
      return;
    }
    var w, rest := words[0], words[1..];
    OtherWords(words);
    var spaced := ScanFirst(s, w, PrintWords(rest), lower);
    var later := ScanWords(spaced, rest, lower);
    gaps := [Spaces(w.after)] + later;
    SpacedMore(s.statement, Shown(w), Texts(rest), Spaces(w.after), later);
    SeparateMore(w, rest, later);
  }

  lemma OtherWords(words: seq<Word>)
    requires words != [] && GoodWords(words)
    ensures GoodWord(words[0]) && GoodWords(words[1..]) && (words[1..] != [] ==> words[0].after != [])
  {
  }

  lemma SpacedMore(before: string, word: string, words: seq<string>, gap: string, gaps: seq<string>)
    requires |gaps| == |words|
    ensures before + Spaced([word] + words, [gap] + gaps) == before + word + gap + Spaced(words, gaps)
  {
    assert ([word] + words)[1..] == words && ([gap] + gaps)[1..] == gaps;
    Regrouped(before, word, gap, Spaced(words, gaps));
  }

  lemma Regrouped(a: string, b: string, c: string, d: string)
    ensures a + (b + c + d) == a + b + c + d
  {
  }

  lemma ScanFirst(s: Scan, w: Word, rest: string, lower: string -> string) returns (spaced: Scan)
    requires Ready(s) && GoodWord(w)
    ensures spaced == s.(statement := s.statement + Shown(w) + Spaces(w.after))
    ensures ScanAll(s, Shown(w) + PrintGap(w.after) + rest, lower) == ScanAll(spaced, rest, lower)
  {
    ScanWord(s, w, lower);
    ScanSplit(s, Shown(w) + PrintGap(w.after), rest, lower);
    ScanSplit(s, Shown(w), PrintGap(w.after), lower);
    ScanGap(s.(statement := s.statement + Shown(w)), w.after, lower);
    spaced := ScanAll(s, Shown(w) + PrintGap(w.after), lower);
  }

  lemma SeparateMore(w: Word, rest: seq<Word>, later: seq<string>)
    requires GoodWord(w) && (rest != [] ==> w.after != []) && |later| == |Texts(rest)| && Separate(Texts(rest), later)
    ensures Separate([Shown(w)] + Texts(rest), [Spaces(w.after)] + later)
  {
    ShownWord(w);
    SpacesOf(w.after);
    TextsAt(rest);
    var words, gaps := [Shown(w)] + Texts(rest), [Spaces(w.after)] + later;
    assert forall i :: 1 <= i < |words| ==> words[i] == Texts(rest)[i - 1] && gaps[i] == later[i - 1];
  }

  lemma {:induction false} TextsAt(words: seq<Word>)
    ensures |Texts(words)| == |words| && forall i :: 0 <= i < |words| ==> Texts(words)[i] == Shown(words[i])
  {
    if words != [] {
      TextsAt(words[1..]);
    }
  }

  /** A gap and words leave the words in the statement. */
  lemma ScanHead(s: Scan, gap: seq<Filler>, words: seq<Word>, lower: string -> string) returns (t: Scan)
    requires Ready(s) && AllSpace(s.statement) && GoodGap(gap) && GoodWords(words)
    ensures t == ScanAll(s, PrintGap(gap) + PrintWords(words), lower)
    ensures t == s.(statement := t.statement) && Fields(t.statement) == Texts(words)
  {
    var spaces := Spaces(gap);
    ScanGap(s, gap, lower);
    SpacesOf(gap);
    ScanSplit(s, PrintGap(gap), PrintWords(words), lower);
    var gaps := ScanWords(s.(statement := s.statement + spaces), words, lower);
    t := ScanAll(s, PrintGap(gap) + PrintWords(words), lower);
    FieldsOfStatement(s.statement + spaces, Texts(words), gaps);
  }

  lemma QuotesOff(w: Word)
    requires GoodWord(w)
    ensures TrimQuotes(Shown(w)) == TrimQuotes(w.text)
  {
    if w.quote.Some? {
      assert Shown(w)[1..] == w.text + [w.quote.value];
      TrimQuotesLast(w.text, w.quote.value);
    }
  }

  lemma ScanThrough(s: Scan, a: string, c: char, b: string, lower: string -> string)
    ensures ScanAll(s, a + [c] + b, lower) == ScanAll(Step(ScanAll(s, a, lower), c, lower), b, lower)
  {
    ScanSplit(s, a + [c], b, lower);
    ScanSplit(s, a, [c], lower);
    ScanOne(ScanAll(s, a, lower), c, lower);
  }

  lemma PrintedDirective(gap: seq<Filler>, words: seq<Word>, rest: Tree)
    ensures Print(Directive(gap, words, rest)) == (PrintGap(gap) + PrintWords(words)) + [';'] + Print(rest)
  {
  }

  lemma PrintedBlock(gap: seq<Filler>, words: seq<Word>, body: Tree, rest: Tree)
    ensures Print(Block(gap, words, body, rest)) == (PrintGap(gap) + PrintWords(words)) + ['{'] + (Print(body) + ['}'] + Print(rest))
  {
  }

  /** The scan of a tree ends in the same contexts, with the includes of the tree added. */
  predicate Scanned(s: Scan, t: Tree, r: Scan, lower: string -> string)
  {
    AllSpace(r.statement)
    && r == s.(statement := r.statement, includes := s.includes + HttpIncludes(t, "http" in s.contexts, lower))
  }

  /** Scanning a printed tree adds its includes and leaves the contexts as they were. */
  lemma {:induction false} ScanTree(s: Scan, t: Tree, lower: string -> string)
    requires Ready(s) && AllSpace(s.statement) && Good(t)
    ensures Scanned(s, t, ScanAll(s, Print(t), lower), lower)
    decreases t
  {
    match t {
      case End(gap) =>
        ScanGap(s, gap, lower);
        SpacesOf(gap);
        assert Print(t) == PrintGap(gap);
        assert s.includes + [] == s.includes;
      case Directive(gap, words, rest) =>
        var head := ScanHead(s, gap, words, lower);
        var after := ScanDirective(s, head, words, lower);
        PrintedDirective(gap, words, rest);
        ScanThrough(s, PrintGap(gap) + PrintWords(words), ';', Print(rest), lower);
        ScanTree(after, rest, lower);
        DirectiveScanned(s, t, after, ScanAll(after, Print(rest), lower), lower);
      case Block(gap, words, body, rest) =>
        var head := ScanHead(s, gap, words, lower);
        var entered := EnterBlock(s, head, words, lower);
        PrintedBlock(gap, words, body, rest);
        ScanThrough(s, PrintGap(gap) + PrintWords(words), '{', Print(body) + ['}'] + Print(rest), lower);
        ScanThrough(entered, Print(body), '}', Print(rest), lower);
        ScanTree(entered, body, lower);
        var inner := ScanAll(entered, Print(body), lower);
        var closed := LeaveBlock(s, entered, body, inner, lower);
        ScanTree(closed, rest, lower);
        BlockScanned(s, t, closed, ScanAll(closed, Print(rest), lower), lower);
    }
  }

  lemma ScanDirective(s: Scan, head: Scan, words: seq<Word>, lower: string -> string) returns (after: Scan)
    requires Ready(s) && head == s.(statement := head.statement) && Fields(head.statement) == Texts(words) && GoodWords(words)
    ensures after == Step(head, ';', lower)
    ensures after == s.(statement := "", includes := s.includes + Argument(words, "http" in s.contexts, lower))
  {
    TextsAt(words);
    after := Step(head, ';', lower);
    if |words| >= 2 {
      QuotesOff(words[1]);
    }
  }

  function Argument(words: seq<Word>, inHttp: bool, lower: string -> string): seq<string>
  {
    if inHttp && |words| >= 2 && lower(Shown(words[0])) == "include" then [TrimQuotes(words[1].text)] else []
  }

  lemma DirectiveScanned(s: Scan, t: Tree, after: Scan, r: Scan, lower: string -> string)
    requires t.Directive? && after == s.(statement := "", includes := s.includes + Argument(t.words, "http" in s.contexts, lower))
    requires Scanned(after, t.rest, r, lower)
    ensures Scanned(s, t, r, lower)
  {
    var http := "http" in s.contexts;
    assert HttpIncludes(t, http, lower) == Argument(t.words, http, lower) + HttpIncludes(t.rest, http, lower);
    assert s.includes + (Argument(t.words, http, lower) + HttpIncludes(t.rest, http, lower))
        == (s.includes + Argument(t.words, http, lower)) + HttpIncludes(t.rest, http, lower);
  }

  function NameOf(words: seq<Word>, lower: string -> string): string
  {
    if words == [] then "" else lower(Shown(words[0]))
  }

  lemma EnterBlock(s: Scan, head: Scan, words: seq<Word>, lower: string -> string) returns (entered: Scan)
    requires Ready(s) && head == s.(statement := head.statement) && Fields(head.statement) == Texts(words)
    ensures entered == Step(head, '{', lower)
    ensures entered == s.(statement := "", contexts := s.contexts + [NameOf(words, lower)])
    ensures "http" in entered.contexts <==> "http" in s.contexts || NameOf(words, lower) == "http"
  {
    TextsAt(words);
    entered := Step(head, '{', lower);
  }

  lemma LeaveBlock(s: Scan, entered: Scan, body: Tree, inner: Scan, lower: string -> string) returns (closed: Scan)
    requires Ready(s) && Scanned(entered, body, inner, lower)
    requires exists name :: entered == s.(statement := "", contexts := s.contexts + [name])
    ensures closed == Step(inner, '}', lower)
    ensures closed == s.(statement := "", includes := s.includes + HttpIncludes(body, "http" in entered.contexts, lower))
  {
    closed := Step(inner, '}', lower);
    var name :| entered == s.(statement := "", contexts := s.contexts + [name]);
    assert (s.contexts + [name])[..|s.contexts|] == s.contexts;
  }

  lemma BlockScanned(s: Scan, t: Tree, closed: Scan, r: Scan, lower: string -> string)
    requires t.Block?
    requires var http := "http" in s.contexts || NameOf(t.words, lower) == "http";
             closed == s.(statement := "", includes := s.includes + HttpIncludes(t.body, http, lower))
    requires Scanned(closed, t.rest, r, lower)
    ensures Scanned(s, t, r, lower)
  {
    var http := "http" in s.contexts;
    var inside := http || NameOf(t.words, lower) == "http";
    assert HttpIncludes(t, http, lower) == HttpIncludes(t.body, inside, lower) + HttpIncludes(t.rest, http, lower);
    assert s.includes + (HttpIncludes(t.body, inside, lower) + HttpIncludes(t.rest, http, lower))
        == (s.includes + HttpIncludes(t.body, inside, lower)) + HttpIncludes(t.rest, http, lower);
  }

  /** However a configuration of plain and quoted words is spaced and commented, the scanner finds exactly the
      includes of its http blocks, in order. */
  lemma ScannerFindsIncludes(t: Tree, lower: string -> string)
    requires Good(t)
    ensures ScanAll(START, Print(t), lower).includes == HttpIncludes(t, false, lower)
  {
    ScanTree(START, t, lower);
    assert [] + HttpIncludes(t, false, lower) == HttpIncludes(t, false, lower);
  }
}
