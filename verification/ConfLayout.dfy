/**
 * Directives as people write them: words bare or in quotes, with escapes, between blanks and comments. Such a text is
 * read as the words it is made of.
 */
module ConfLayout {
  import opened ConfToken
  import opened ConfPrint

  /** A character, or a character behind a backslash. */
  datatype Unit = Plain(c: char) | Escaped(c: char)

  datatype Style = Bare | Single | Double

  datatype Word = Word(style: Style, units: seq<Unit>)

  datatype Filler = Blank(c: char) | Comment(body: string)

  datatype Item = Fill(f: Filler) | Term(w: Word)

  // How it is written

  function Spell(u: Unit): string {
    match u
    case Plain(c) => [c]
    case Escaped(c) => ['\\', c]
  }

  function SpellAll(us: seq<Unit>): string { if us == [] then "" else Spell(us[0]) + SpellAll(us[1..]) }

  function Written(i: Item): string {
    match i
    case Fill(Blank(c)) => [c]
    case Fill(Comment(body)) => ['#'] + body + ['\n']
    case Term(Word(Bare, us)) => SpellAll(us)
    case Term(Word(Single, us)) => ['\''] + SpellAll(us) + ['\'']
    case Term(Word(Double, us)) => ['"'] + SpellAll(us) + ['"']
  }

  function WrittenAll(items: seq<Item>): string {
    if items == [] then "" else Written(items[0]) + WrittenAll(items[1..])
  }

  // What it means

  /** A backslash before t, r and n makes a control character; before a quote or a backslash it goes; else it stays. */
  function Worth(u: Unit): string {
    match u
    case Plain(c) => [c]
    case Escaped('t') => "\t"
    case Escaped('r') => "\r"
    case Escaped('n') => "\n"
    case Escaped(c) => if c == '"' || c == '\'' || c == '\\' then [c] else ['\\', c]
  }

  function Value(us: seq<Unit>): string { if us == [] then "" else Worth(us[0]) + Value(us[1..]) }

  function WordsOf(items: seq<Item>): seq<string> {
    if items == [] then []
    else (if items[0].Term? then [Value(items[0].w.units)] else []) + WordsOf(items[1..])
  }

  // What may be written

  /** Whether "{" would belong to the word: behind "$", with no more than "{" between. */
  function Dollar(v: bool, u: Unit): bool { u == Plain('$') || (u == Plain('{') && v) }

  function DollarAll(v: bool, us: seq<Unit>): bool
    decreases |us|
  {
    if us == [] then v else DollarAll(Dollar(v, us[0]), us[1..])
  }

  predicate Fits(style: Style, v: bool, u: Unit) {
    u.Plain? ==>
      match style
      case Double => u.c != '"' && u.c != '\\'
      case Single => u.c != '\'' && u.c != '\\'
      case Bare => u.c !in {' ', '\t', '\r', '\n', ';', '\\'} && (u.c == '{' ==> v)
  }

  predicate FitAll(style: Style, v: bool, us: seq<Unit>)
    decreases |us|
  {
    us != [] ==> Fits(style, v, us[0]) && FitAll(style, Dollar(v, us[0]), us[1..])
  }

  /** A bare word does not begin like something else; a "$" at its beginning makes nothing of "{". */
  predicate Opens(u: Unit) {
    u.Plain? ==> u.c !in {' ', '\t', '\r', '\n', ';', '{', '}', '#', '\\', '"', '\''}
  }

  predicate Proper(w: Word) {
    if w.style == Bare then w.units != [] && Opens(w.units[0]) && FitAll(Bare, false, w.units[1..])
    else FitAll(w.style, false, w.units)
  }

  predicate Good(i: Item) {
    match i
    case Fill(Blank(c)) => c in {' ', '\t', '\r', '\n'}
    case Fill(Comment(body)) => '\n' !in body
    case Term(w) => Proper(w)
  }

  /** Where one is: between words, behind a bare word, behind a quoted one. */
  datatype Phase = Free | BehindBare(units: seq<Unit>) | BehindQuote

  /** A word is followed by a blank, or by nothing; behind a quote there may also be a word that begins with ")". */
  predicate Follows(ph: Phase, i: Item) {
    match ph
    case Free => true
    case BehindBare(_) => i.Fill? && i.f.Blank?
    case BehindQuote =>
      if i.Fill? then i.f.Blank? else i.w.style == Bare && i.w.units != [] && i.w.units[0] == Plain(')')
  }

  function Then(i: Item): Phase {
    match i
    case Fill(_) => Free
    case Term(Word(Bare, us)) => BehindBare(us)
    case Term(_) => BehindQuote
  }

  predicate Layout(ph: Phase, items: seq<Item>)
    decreases |items|
  {
    items != [] ==> Good(items[0]) && Follows(ph, items[0]) && Layout(Then(items[0]), items[1..])
  }

  function Last(ph: Phase, items: seq<Item>): Phase
    decreases |items|
  {
    if items == [] then ph else Last(Then(items[0]), items[1..])
  }

  // Steps of the scan without limit

  ghost predicate OpenAll(o: int) { true }

  /** Reading on from `s` is the same as reading on from `t`. Kept folded. */
  ghost predicate Goes(text: string, s: State, t: State) {
    && s.start <= s.pos <= |text| && t.start <= t.pos <= |text|
    && forall o :: OpenAll(o) ==> ScanAll(text, s) == ScanAll(text, t)
  }

  lemma GoesNone(text: string, s: State)
    requires s.start <= s.pos <= |text|
    ensures Goes(text, s, s)
  {}

  lemma GoesOne(text: string, s: State, t: State)
    requires s.start <= s.pos < |text| && t.start <= t.pos <= |text|
    requires Feed(s, text[s.pos], text[s.start..s.pos + 1]) == ConfToken.More(t)
    ensures Goes(text, s, t)
  {}

  lemma GoesOn(text: string, s: State, t: State, u: State)
    requires Goes(text, s, t) && Goes(text, t, u)
    ensures Goes(text, s, u)
  {
    assert OpenAll(0);
  }

  /** Reading on from `s` ends so. Kept folded. */
  ghost predicate Yields(text: string, s: State, r: Result) {
    s.start <= s.pos <= |text| && forall o :: OpenAll(o) ==> ScanAll(text, s) == r
  }

  lemma YieldsIs(text: string, s: State, r: Result)
    requires Yields(text, s, r)
    ensures ScanAll(text, s) == r
  {
    assert OpenAll(0);
  }

  lemma GoesRead(text: string, s: State, t: State, r: Result)
    requires Goes(text, s, t) && Yields(text, t, r)
    ensures Yields(text, s, r)
  {
    assert OpenAll(0);
  }

  // Line feeds

  lemma {:induction false} LinesJoin(a: string, b: string)
    ensures Lines(a + b) == Lines(a) + Lines(b)
  {
    if a == "" {
      assert a + b == b;
    } else {
      assert (a + b)[1..] == a[1..] + b;
      LinesJoin(a[1..], b);
    }
  }

  lemma LinesTwo(c: char)
    ensures Lines(['\\', c]) == Lines([c])
  {
    LinesOne(c);
    assert ['\\', c][1..] == [c];
  }

  // Places in the text

  lemma StandsJoin(text: string, p: nat, a: string, b: string)
    requires Stands(text, p, a) && Stands(text, p + |a|, b)
    ensures Stands(text, p, a + b)
  {
    assert text[p..p + |a| + |b|] == text[p..p + |a|] + text[p + |a|..p + |a| + |b|];
  }

  lemma StandsOne(text: string, p: nat)
    requires p < |text|
    ensures Stands(text, p, [text[p]])
  {}

  lemma Join3(a: string, b: string, c: string)
    ensures a + (b + c) == (a + b) + c
  {}

  // Units

  /** In a word of this style, nothing pending. */
  predicate Within(s: State, style: Style) {
    && !s.needSpace && !s.lastSpace && !s.comment && !s.quoted
    && s.single == (style == Single) && s.double == (style == Double) && s.start <= s.pos
  }

  lemma PlainUnit(text: string, s: State, style: Style, c: char)
    requires Within(s, style) && Stands(text, s.pos, [c]) && Fits(style, s.variable, Plain(c))
    ensures Goes(text, s, Moved(s, 1, Lines([c]), Dollar(s.variable, Plain(c))))
  {
    StandsAt(text, s.pos, [c], 0);
    LinesOne(c);
    GoesOne(text, s, Moved(s, 1, Lines([c]), Dollar(s.variable, Plain(c))));
  }

  lemma EscapedUnit(text: string, s: State, style: Style, c: char)
    requires Within(s, style) && Stands(text, s.pos, ['\\', c])
    ensures Goes(text, s, Moved(s, 2, Lines(['\\', c]), false))
  {
    StandsAt(text, s.pos, ['\\', c], 0);
    StandsAt(text, s.pos, ['\\', c], 1);
    LinesTwo(c);
    LinesOne(c);
    var s1 := s.(pos := s.pos + 1, variable := false, quoted := true);
    GoesOne(text, s, s1);
    GoesOne(text, s1, Moved(s, 2, Lines(['\\', c]), false));
    GoesOn(text, s, s1, Moved(s, 2, Lines(['\\', c]), false));
  }

  lemma OneUnit(text: string, s: State, style: Style, u: Unit)
    requires Within(s, style) && Stands(text, s.pos, Spell(u)) && Fits(style, s.variable, u)
    ensures Goes(text, s, Moved(s, |Spell(u)|, Lines(Spell(u)), Dollar(s.variable, u)))
  {
    match u
    case Plain(c) => PlainUnit(text, s, style, c);
    case Escaped(c) => EscapedUnit(text, s, style, c);
  }

  lemma MovedTwice(s: State, n: nat, l: nat, v: bool, n': nat, l': nat, v': bool)
    ensures Moved(Moved(s, n, l, v), n', l', v') == Moved(s, n + n', l + l', v')
  {}

  lemma FirstUnit(us: seq<Unit>, v: bool)
    requires us != []
    ensures SpellAll(us) == Spell(us[0]) + SpellAll(us[1..])
    ensures |SpellAll(us)| == |Spell(us[0])| + |SpellAll(us[1..])|
    ensures Lines(SpellAll(us)) == Lines(Spell(us[0])) + Lines(SpellAll(us[1..]))
    ensures DollarAll(v, us) == DollarAll(Dollar(v, us[0]), us[1..])
  {
    LinesJoin(Spell(us[0]), SpellAll(us[1..]));
  }

  lemma UnitsBegin(text: string, s: State, style: Style, u: Unit, rest: string) returns (t: State)
    requires Within(s, style) && Stands(text, s.pos, Spell(u) + rest) && Fits(style, s.variable, u)
    ensures t == Moved(s, |Spell(u)|, Lines(Spell(u)), Dollar(s.variable, u)) && Goes(text, s, t)
    ensures Within(t, style) && Stands(text, t.pos, rest)
  {
    StandsParts(text, s.pos, Spell(u), rest);
    OneUnit(text, s, style, u);
    t := Moved(s, |Spell(u)|, Lines(Spell(u)), Dollar(s.variable, u));
  }

  lemma {:induction false} Units(text: string, s: State, style: Style, us: seq<Unit>) returns (t: State)
    requires Within(s, style) && Stands(text, s.pos, SpellAll(us)) && FitAll(style, s.variable, us)
    ensures Goes(text, s, t) && Within(t, style)
    ensures t == Moved(s, |SpellAll(us)|, Lines(SpellAll(us)), DollarAll(s.variable, us))
    decreases |us|
  {
    if us == [] {
      t := s;
      GoesNone(text, s);
    } else {
      var u, rest := us[0], us[1..];
      FirstUnit(us, s.variable);
      var s1 := UnitsBegin(text, s, style, u, SpellAll(rest));
      t := Units(text, s1, style, rest);
      GoesOn(text, s, s1, t);
      MovedTwice(s, |Spell(u)|, Lines(Spell(u)), s1.variable, |SpellAll(rest)|, Lines(SpellAll(rest)), t.variable);
    }
  }

  // The copying loop

  /** Which characters are something else behind a backslash. */
  predicate Changes(c: char) { c in {'"', '\'', '\\', 't', 'r', 'n'} }

  lemma PlainPiece(c: char, rest: string)
    requires rest != "" && c != '\\'
    ensures Unescape([c] + rest, 0) == [c] + Unescape(rest, 0)
  {
    var whole := [c] + rest;
    assert Piece(whole, 0) == (c, 1);
    UnescapeSuffix(whole, rest, 1, 0, 1);
  }

  lemma ChangedPiece(c: char, rest: string)
    requires rest != "" && Changes(c)
    ensures Unescape(['\\', c] + rest, 0) == Worth(Escaped(c)) + Unescape(rest, 0)
  {
    var whole := ['\\', c] + rest;
    assert [Piece(whole, 0).0] == Worth(Escaped(c)) && Piece(whole, 0).1 == 2;
    UnescapeSuffix(whole, rest, 2, 0, 2);
  }

  lemma KeptPiece(c: char, rest: string)
    requires rest != "" && !Changes(c)
    ensures Unescape(['\\', c] + rest, 0) == Worth(Escaped(c)) + Unescape(rest, 0)
  {
    var whole, tail := ['\\', c] + rest, [c] + rest;
    assert whole[1..] == tail;
    assert Piece(whole, 0) == ('\\', 1);
    UnescapeSuffix(whole, tail, 1, 0, 1);
    PlainPiece(c, rest);
  }

  lemma UnescapeUnit(u: Unit, rest: string)
    requires rest != "" && u != Plain('\\')
    ensures Unescape(Spell(u) + rest, 0) == Worth(u) + Unescape(rest, 0)
  {
    match u
    case Plain(c) => PlainPiece(c, rest);
    case Escaped(c) => if Changes(c) { ChangedPiece(c, rest); } else { KeptPiece(c, rest); }
  }

  lemma {:induction false} UnescapeAll(us: seq<Unit>, end: char)
    requires forall i :: 0 <= i < |us| ==> us[i] != Plain('\\')
    ensures Unescape(SpellAll(us) + [end], 0) == Value(us)
  {
    if us != [] {
      UnescapeAll(us[1..], end);
      assert SpellAll(us) + [end] == Spell(us[0]) + (SpellAll(us[1..]) + [end]);
      UnescapeUnit(us[0], SpellAll(us[1..]) + [end]);
    }
  }

  lemma {:induction false} NoSlash(style: Style, v: bool, us: seq<Unit>)
    requires FitAll(style, v, us)
    ensures forall i :: 0 <= i < |us| ==> us[i] != Plain('\\')
    decreases |us|
  {
    if us != [] {
      NoSlash(style, Dollar(v, us[0]), us[1..]);
      forall i | 0 <= i < |us| ensures us[i] != Plain('\\') { if i > 0 { assert us[i] == us[1..][i - 1]; } }
    }
  }

  // Items

  /** The words so far, with the bare word that has not been taken yet. */
  function Told(ph: Phase, words: seq<string>): seq<string> {
    if ph.BehindBare? then words + [Value(ph.units)] else words
  }

  /** The text read since `start` is this bare word. */
  ghost predicate Pending(text: string, s: State, us: seq<Unit>) {
    && us != [] && s.start + |SpellAll(us)| == s.pos && Stands(text, s.start, SpellAll(us))
    && s.variable == DollarAll(false, us[1..]) && forall i :: 0 <= i < |us| ==> us[i] != Plain('\\')
  }

  ghost predicate At(text: string, s: State, ph: Phase, words: seq<string>, pos: nat, line: nat) {
    && s.words == words && s.pos == pos && s.line == line && s.start <= s.pos <= |text|
    && !s.comment && !s.quoted && !s.single && !s.double
    && match ph
       case Free => s.lastSpace && !s.needSpace && !s.variable
       case BehindQuote => s.needSpace && !s.lastSpace && !s.variable
       case BehindBare(us) => !s.needSpace && !s.lastSpace && Pending(text, s, us)
  }

  lemma PendingWord(text: string, s: State, us: seq<Unit>, c: char)
    requires Pending(text, s, us) && Stands(text, s.pos, [c])
    ensures s.pos < |text| && text[s.pos] == c && Unescape(text[s.start..s.pos + 1], 0) == Value(us)
  {
    StandsAt(text, s.pos, [c], 0);
    assert text[s.start..s.pos + 1] == text[s.start..s.pos] + [text[s.pos]];
    UnescapeAll(us, c);
  }

  lemma BlankStep(text: string, s: State, ph: Phase, words: seq<string>, c: char) returns (t: State)
    requires At(text, s, ph, words, s.pos, s.line) && IsSpace(c) && Stands(text, s.pos, [c])
    ensures Goes(text, s, t) && At(text, t, Free, Told(ph, words), s.pos + 1, s.line + Lines([c]))
  {
    StandsAt(text, s.pos, [c], 0);
    LinesOne(c);
    if ph.BehindBare? { PendingWord(text, s, ph.units, c); }
    t := Feed(s, c, text[s.start..s.pos + 1]).s;
    GoesOne(text, s, t);
  }

  lemma CommentChar(text: string, s: State, body: string) returns (t: State)
    requires s.comment && s.start <= s.pos && Stands(text, s.pos, body) && body != "" && '\n' !in body
    ensures Goes(text, s, t) && t == s.(pos := s.pos + 1) && Stands(text, t.pos, body[1..])
  {
    assert body == [body[0]] + body[1..] && body[0] in body;
    StandsParts(text, s.pos, [body[0]], body[1..]);
    StandsAt(text, s.pos, [body[0]], 0);
    t := s.(pos := s.pos + 1);
    GoesOne(text, s, t);
  }

  lemma {:induction false} CommentBody(text: string, s: State, body: string) returns (t: State)
    requires s.comment && s.start <= s.pos && Stands(text, s.pos, body) && '\n' !in body
    ensures Goes(text, s, t) && t == s.(pos := s.pos + |body|)
    decreases |body|
  {
    if body == "" {
      t := s;
      GoesNone(text, s);
    } else {
      var s1 := CommentChar(text, s, body);
      forall c | c in body[1..] ensures c in body {}
      t := CommentBody(text, s1, body[1..]);
      GoesOn(text, s, s1, t);
    }
  }

  lemma {:induction false} NoLines(body: string)
    requires '\n' !in body
    ensures Lines(body) == 0
  {
    if body != "" {
      assert body[0] in body;
      forall c | c in body[1..] ensures c in body {}
      NoLines(body[1..]);
    }
  }

  lemma CommentLines(body: string)
    requires '\n' !in body
    ensures Lines(['#'] + body + ['\n']) == 1
  {
    LinesJoin(['#'] + body, ['\n']);
    LinesJoin(['#'], body);
    NoLines(body);
    LinesOne('#');
    LinesOne('\n');
  }

  lemma CommentStep(text: string, s: State, words: seq<string>, body: string) returns (t: State)
    requires At(text, s, Free, words, s.pos, s.line) && '\n' !in body && Stands(text, s.pos, ['#'] + body + ['\n'])
    ensures Goes(text, s, t) && At(text, t, Free, words, s.pos + |body| + 2, s.line + 1)
  {
    StandsParts(text, s.pos, ['#'] + body, ['\n']);
    StandsParts(text, s.pos, ['#'], body);
    StandsAt(text, s.pos, ['#'], 0);
    var s1 := s.(start := s.pos, startLine := s.line, pos := s.pos + 1, comment := true);
    GoesOne(text, s, s1);
    var s2 := CommentBody(text, s1, body);
    GoesOn(text, s, s1, s2);
    StandsAt(text, s2.pos, ['\n'], 0);
    t := s2.(pos := s2.pos + 1, line := s2.line + 1, comment := false);
    GoesOne(text, s2, t);
    GoesOn(text, s, s2, t);
  }

  function Mark(style: Style): char { if style == Single then '\'' else '"' }

  lemma QuoteOpens(text: string, s: State, words: seq<string>, style: Style) returns (t: State)
    requires At(text, s, Free, words, s.pos, s.line) && style != Bare && Stands(text, s.pos, [Mark(style)])
    ensures Goes(text, s, t) && Within(t, style) && !t.variable
    ensures t.words == words && t.start == t.pos == s.pos + 1 && t.line == s.line
  {
    StandsAt(text, s.pos, [Mark(style)], 0);
    t := Feed(s, Mark(style), text[s.start..s.pos + 1]).s;
    GoesOne(text, s, t);
  }

  lemma QuoteCloses(text: string, s: State, style: Style, us: seq<Unit>) returns (t: State)
    requires Within(s, style) && style != Bare && Stands(text, s.pos, [Mark(style)])
    requires s.start + |SpellAll(us)| == s.pos && Stands(text, s.start, SpellAll(us))
      && forall i :: 0 <= i < |us| ==> us[i] != Plain('\\')
    ensures Goes(text, s, t) && At(text, t, BehindQuote, s.words + [Value(us)], s.pos + 1, s.line)
  {
    StandsAt(text, s.pos, [Mark(style)], 0);
    assert text[s.start..s.pos + 1] == text[s.start..s.pos] + [text[s.pos]];
    UnescapeAll(us, Mark(style));
    t := s.(variable := false, single := false, double := false, needSpace := true, words := s.words + [Value(us)],
      pos := s.pos + 1);
    GoesOne(text, s, t);
  }

  lemma QuotedLines(style: Style, us: seq<Unit>)
    ensures Lines([Mark(style)] + SpellAll(us) + [Mark(style)]) == Lines(SpellAll(us))
  {
    LinesJoin([Mark(style)] + SpellAll(us), [Mark(style)]);
    LinesJoin([Mark(style)], SpellAll(us));
    LinesOne(Mark(style));
  }

  lemma QuotedStep(text: string, s: State, words: seq<string>, style: Style, us: seq<Unit>) returns (t: State)
    requires At(text, s, Free, words, s.pos, s.line) && style != Bare && FitAll(style, false, us)
    requires Stands(text, s.pos, [Mark(style)] + SpellAll(us) + [Mark(style)])
    ensures Goes(text, s, t)
    ensures At(text, t, BehindQuote, words + [Value(us)], s.pos + |SpellAll(us)| + 2, s.line + Lines(SpellAll(us)))
  {
    StandsParts(text, s.pos, [Mark(style)] + SpellAll(us), [Mark(style)]);
    StandsParts(text, s.pos, [Mark(style)], SpellAll(us));
    var s1 := QuoteOpens(text, s, words, style);
    var s2 := Units(text, s1, style, us);
    GoesOn(text, s, s1, s2);
    NoSlash(style, false, us);
    t := QuoteCloses(text, s2, style, us);
    GoesOn(text, s, s2, t);
  }

  /** A bare word begins, between words or behind a quote. */
  lemma BareOpens(text: string, s: State, ph: Phase, words: seq<string>, u: Unit) returns (t: State)
    requires At(text, s, ph, words, s.pos, s.line) && Stands(text, s.pos, Spell(u)) && Opens(u)
    requires ph == Free || (ph == BehindQuote && u == Plain(')'))
    ensures Goes(text, s, t) && Within(t, Bare) && !t.variable
    ensures t.words == words && t.start == s.pos && t.pos == s.pos + |Spell(u)| && t.line == s.line + Lines(Spell(u))
  {
    StandsAt(text, s.pos, Spell(u), 0);
    var s1 := s.(start := s.pos, startLine := s.line + Lines([text[s.pos]]), pos := s.pos + 1,
      line := s.line + Lines([text[s.pos]]), lastSpace := false, needSpace := false, quoted := u.Escaped?);
    LinesOne(text[s.pos]);
    GoesOne(text, s, s1);
    if u.Plain? {
      t := s1;
    } else {
      StandsAt(text, s.pos, Spell(u), 1);
      LinesTwo(u.c);
      LinesOne(u.c);
      t := s1.(pos := s.pos + 2, line := s1.line + Lines([u.c]), quoted := false);
      GoesOne(text, s1, t);
      GoesOn(text, s, s1, t);
    }
  }

  lemma BareStep(text: string, s: State, ph: Phase, words: seq<string>, us: seq<Unit>) returns (t: State)
    requires At(text, s, ph, words, s.pos, s.line) && Stands(text, s.pos, SpellAll(us)) && Proper(Word(Bare, us))
    requires ph == Free || (ph == BehindQuote && us[0] == Plain(')'))
    ensures Goes(text, s, t)
    ensures At(text, t, BehindBare(us), words, s.pos + |SpellAll(us)|, s.line + Lines(SpellAll(us)))
  {
    var rest := us[1..];
    FirstUnit(us, false);
    StandsParts(text, s.pos, Spell(us[0]), SpellAll(rest));
    var s1 := BareOpens(text, s, ph, words, us[0]);
    t := Units(text, s1, Bare, rest);
    GoesOn(text, s, s1, t);
    NoSlash(Bare, false, rest);
    forall i | 0 <= i < |us| ensures us[i] != Plain('\\') { if i > 0 { assert us[i] == rest[i - 1]; } }
  }

  lemma QuotedIs(style: Style, us: seq<Unit>)
    requires style != Bare
    ensures Written(Term(Word(style, us))) == [Mark(style)] + SpellAll(us) + [Mark(style)]
  {}

  lemma OneItem(text: string, s: State, ph: Phase, words: seq<string>, i: Item) returns (t: State, words': seq<string>)
    requires At(text, s, ph, words, s.pos, s.line) && Good(i) && Follows(ph, i) && Stands(text, s.pos, Written(i))
    ensures Goes(text, s, t) && Told(Then(i), words') == Told(ph, words) + WordsOf([i])
    ensures At(text, t, Then(i), words', s.pos + |Written(i)|, s.line + Lines(Written(i)))
  {
    assert [i][1..] == [];
    match i
    case Fill(Blank(c)) =>
      words' := Told(ph, words);
      t := BlankStep(text, s, ph, words, c);
    case Fill(Comment(body)) =>
      words' := words;
      CommentLines(body);
      t := CommentStep(text, s, words, body);
    case Term(Word(style, us)) =>
      if style == Bare {
        words' := words;
        t := BareStep(text, s, ph, words, us);
      } else {
        words' := words + [Value(us)];
        QuotedIs(style, us);
        QuotedLines(style, us);
        t := QuotedStep(text, s, words, style, us);
      }
  }

  lemma FirstItem(items: seq<Item>)
    requires items != []
    ensures WrittenAll(items) == Written(items[0]) + WrittenAll(items[1..])
    ensures Lines(WrittenAll(items)) == Lines(Written(items[0])) + Lines(WrittenAll(items[1..]))
    ensures WordsOf(items) == WordsOf([items[0]]) + WordsOf(items[1..])
  {
    LinesJoin(Written(items[0]), WrittenAll(items[1..]));
    assert [items[0]][1..] == [];
  }

  lemma ItemsBegin(text: string, s: State, ph: Phase, words: seq<string>, i: Item, rest: string)
      returns (t: State, words': seq<string>)
    requires At(text, s, ph, words, s.pos, s.line) && Good(i) && Follows(ph, i)
    requires Stands(text, s.pos, Written(i) + rest)
    ensures Goes(text, s, t) && Told(Then(i), words') == Told(ph, words) + WordsOf([i]) && Stands(text, t.pos, rest)
    ensures At(text, t, Then(i), words', t.pos, t.line)
    ensures t.pos == s.pos + |Written(i)| && t.line == s.line + Lines(Written(i))
  {
    StandsParts(text, s.pos, Written(i), rest);
    t, words' := OneItem(text, s, ph, words, i);
  }

  /** Reading what is laid out so. */
  lemma {:induction false} Items(text: string, s: State, ph: Phase, words: seq<string>, items: seq<Item>)
      returns (t: State, words': seq<string>)
    requires At(text, s, ph, words, s.pos, s.line) && Layout(ph, items) && Stands(text, s.pos, WrittenAll(items))
    ensures Goes(text, s, t) && Told(Last(ph, items), words') == Told(ph, words) + WordsOf(items)
    ensures At(text, t, Last(ph, items), words', t.pos, t.line)
    ensures t.pos == s.pos + |WrittenAll(items)| && t.line == s.line + Lines(WrittenAll(items))
    decreases |items|
  {
    if items == [] {
      t, words' := s, words;
      GoesNone(text, s);
    } else {
      var i, rest := items[0], items[1..];
      FirstItem(items);
      var s1, words1 := ItemsBegin(text, s, ph, words, i, WrittenAll(rest));
      t, words' := Items(text, s1, Then(i), words1, rest);
      GoesOn(text, s, s1, t);
      Sums(Told(ph, words), WordsOf([i]), WordsOf(rest));
    }
  }

  lemma Sums(a: seq<string>, b: seq<string>, c: seq<string>)
    ensures (a + b) + c == a + (b + c)
  {}

  // Ends

  /** What follows: a character that ends the reading, or the end of the text, in a comment or a word perhaps. */
  datatype End = Stop(c: char) | Eof | OpenComment(body: string) | OpenWord(style: Style, units: seq<Unit>, slash: bool)

  predicate Stops(ph: Phase, c: char) {
    match ph
    case Free => c == ';' || c == '{' || c == '}'
    case BehindQuote => !IsSpace(c) && c != ')'
    case BehindBare(us) => c == ';' || (c == '{' && us != [] && !DollarAll(false, us[1..]))
  }

  predicate EndFits(ph: Phase, e: End) {
    match e
    case Stop(c) => Stops(ph, c)
    case Eof => true
    case OpenComment(body) => ph == Free && '\n' !in body
    case OpenWord(style, us, slash) =>
      if style != Bare then ph == Free && FitAll(style, false, us)
      else slash && !ph.BehindBare? && (us != [] ==> Proper(Word(Bare, us)))
           && (ph == BehindQuote ==> us != [] && us[0] == Plain(')'))
  }

  function EndText(e: End): string {
    match e
    case Stop(c) => [c]
    case Eof => ""
    case OpenComment(body) => ['#'] + body
    case OpenWord(style, us, slash) =>
      (if style == Bare then "" else [Mark(style)]) + SpellAll(us) + (if slash then ['\\'] else "")
  }

  /** What is returned for the words and what follows them. */
  function Outcome(words: seq<string>, e: End): Token {
    match e
    case Stop(c) =>
      if c == ';' && words != [] then Directive(words)
      else if c == '{' && words != [] then BlockStart(words)
      else if c == '}' && words == [] then BlockDone
      else Unexpected(c)
    case OpenWord(_, _, _) => UnexpectedEnd
    case _ => if words == [] then FileDone else UnexpectedEnd
  }

  lemma StopRead(text: string, s: State, ph: Phase, words: seq<string>, c: char)
    requires At(text, s, ph, words, s.pos, s.line) && Stops(ph, c) && Stands(text, s.pos, [c])
    requires ph == BehindQuote ==> words != []
    ensures Yields(text, s, Result(Outcome(Told(ph, words), Stop(c)), s.pos + 1, s.line + Lines([c])))
  {
    StandsAt(text, s.pos, [c], 0);
    LinesOne(c);
    if ph.BehindBare? { PendingWord(text, s, ph.units, c); }
  }

  lemma EofRead(text: string, s: State, ph: Phase, words: seq<string>)
    requires At(text, s, ph, words, s.pos, s.line) && s.pos == |text|
    requires ph == BehindQuote ==> words != []
    ensures Yields(text, s, Result(Outcome(Told(ph, words), Eof), s.pos, s.line))
  {}

  lemma OpenCommentRead(text: string, s: State, words: seq<string>, body: string)
    requires At(text, s, Free, words, s.pos, s.line) && '\n' !in body && Stands(text, s.pos, ['#'] + body)
    requires s.pos + 1 + |body| == |text|
    ensures Yields(text, s, Result(Outcome(words, OpenComment(body)), |text|, s.line))
  {
    StandsParts(text, s.pos, ['#'], body);
    StandsAt(text, s.pos, ['#'], 0);
    var s1 := s.(start := s.pos, startLine := s.line, pos := s.pos + 1, comment := true);
    GoesOne(text, s, s1);
    var s2 := CommentBody(text, s1, body);
    GoesOn(text, s, s1, s2);
    GoesRead(text, s, s2, Result(Outcome(words, OpenComment(body)), |text|, s.line));
  }

  /** In a word, at the end of the text or before a backslash that is the last character. */
  lemma Dangles(text: string, s: State, style: Style, slash: bool)
    requires Within(s, style) && if slash then Stands(text, s.pos, ['\\']) && s.pos + 1 == |text| else s.pos == |text|
    ensures Yields(text, s, Result(UnexpectedEnd, |text|, s.line))
  {
    if slash {
      StandsAt(text, s.pos, ['\\'], 0);
      var t := s.(pos := s.pos + 1, variable := false, quoted := true);
      GoesOne(text, s, t);
      GoesRead(text, s, t, Result(UnexpectedEnd, |text|, s.line));
    }
  }

  lemma OpenQuoteParts(text: string, p: nat, style: Style, us: seq<Unit>, slash: bool)
    requires style != Bare && Stands(text, p, EndText(OpenWord(style, us, slash)))
    ensures Stands(text, p, [Mark(style)]) && Stands(text, p + 1, SpellAll(us))
    ensures slash ==> Stands(text, p + 1 + |SpellAll(us)|, ['\\'])
    ensures |EndText(OpenWord(style, us, slash))| == 1 + |SpellAll(us)| + if slash then 1 else 0
  {
    StandsParts(text, p, [Mark(style)] + SpellAll(us), if slash then ['\\'] else "");
    StandsParts(text, p, [Mark(style)], SpellAll(us));
  }

  lemma OpenQuoteRead(text: string, s: State, words: seq<string>, style: Style, us: seq<Unit>, slash: bool)
    requires At(text, s, Free, words, s.pos, s.line) && style != Bare && FitAll(style, false, us)
    requires Stands(text, s.pos, [Mark(style)]) && Stands(text, s.pos + 1, SpellAll(us))
    requires var q := s.pos + 1 + |SpellAll(us)|;
      if slash then Stands(text, q, ['\\']) && q + 1 == |text| else q == |text|
    ensures Yields(text, s, Result(UnexpectedEnd, |text|, s.line + Lines(SpellAll(us))))
  {
    var s1 := QuoteOpens(text, s, words, style);
    var s2 := Units(text, s1, style, us);
    GoesOn(text, s, s1, s2);
    Dangles(text, s2, style, slash);
    GoesRead(text, s, s2, Result(UnexpectedEnd, |text|, s2.line));
  }

  lemma OpenBareRead(text: string, s: State, ph: Phase, words: seq<string>, us: seq<Unit>)
    requires At(text, s, ph, words, s.pos, s.line) && EndFits(ph, OpenWord(Bare, us, true))
    requires Stands(text, s.pos, SpellAll(us) + ['\\']) && s.pos + |SpellAll(us)| + 1 == |text|
    ensures Yields(text, s, Result(UnexpectedEnd, |text|, s.line + Lines(SpellAll(us))))
  {
    StandsParts(text, s.pos, SpellAll(us), ['\\']);
    if us == [] {
      StandsAt(text, s.pos, ['\\'], 0);
      var t := s.(start := s.pos, startLine := s.line, pos := s.pos + 1, quoted := true, lastSpace := false);
      GoesOne(text, s, t);
      GoesRead(text, s, t, Result(UnexpectedEnd, |text|, s.line));
    } else {
      var t := BareStep(text, s, ph, words, us);
      Dangles(text, t, Bare, true);
      GoesRead(text, s, t, Result(UnexpectedEnd, |text|, t.line));
    }
  }

  lemma EndLines(e: End)
    ensures Lines(EndText(e)) == match e
      case Stop(c) => Lines([c])
      case Eof => 0
      case OpenComment(body) => Lines(['#'] + body)
      case OpenWord(_, us, _) => Lines(SpellAll(us))
  {
    if e.OpenWord? {
      var head: string := if e.style == Bare then "" else [Mark(e.style)];
      var tail: string := if e.slash then ['\\'] else "";
      LinesJoin(head + SpellAll(e.units), tail);
      LinesJoin(head, SpellAll(e.units));
      LinesOne(Mark(e.style));
      LinesOne('\\');
    }
  }

  lemma EndRead(text: string, s: State, ph: Phase, words: seq<string>, e: End)
    requires At(text, s, ph, words, s.pos, s.line) && EndFits(ph, e) && Stands(text, s.pos, EndText(e))
    requires (ph == BehindQuote ==> words != []) && (!e.Stop? ==> s.pos + |EndText(e)| == |text|)
    ensures Yields(text, s,
      Result(Outcome(Told(ph, words), e), s.pos + |EndText(e)|, s.line + Lines(EndText(e))))
  {
    EndLines(e);
    match e
    case Stop(c) => StopRead(text, s, ph, words, c);
    case Eof => EofRead(text, s, ph, words);
    case OpenComment(body) =>
      LinesJoin(['#'], body);
      LinesOne('#');
      NoLines(body);
      OpenCommentRead(text, s, words, body);
    case OpenWord(_, us, _) => OpenWordRead(text, s, ph, words, e);
  }

  lemma BareEndText(us: seq<Unit>)
    ensures EndText(OpenWord(Bare, us, true)) == SpellAll(us) + ['\\']
  {}

  lemma OpenWordRead(text: string, s: State, ph: Phase, words: seq<string>, e: End)
    requires e.OpenWord? && At(text, s, ph, words, s.pos, s.line) && EndFits(ph, e)
    requires Stands(text, s.pos, EndText(e)) && s.pos + |EndText(e)| == |text|
    ensures Yields(text, s, Result(UnexpectedEnd, |text|, s.line + Lines(SpellAll(e.units))))
  {
    if e.style == Bare {
      BareEndText(e.units);
      OpenBareRead(text, s, ph, words, e.units);
    } else {
      OpenQuoteParts(text, s.pos, e.style, e.units, e.slash);
      OpenQuoteRead(text, s, words, e.style, e.units, e.slash);
    }
  }

  lemma {:induction false} QuoteHasWord(ph: Phase, items: seq<Item>)
    requires Last(ph, items) == BehindQuote && ph != BehindQuote
    ensures WordsOf(items) != []
    decreases |items|
  {
    if Then(items[0]) != BehindQuote { QuoteHasWord(Then(items[0]), items[1..]); }
  }

  lemma ReadsEnd(text: string, s: State, t: State, ph: Phase, words: seq<string>, e: End)
    requires Goes(text, s, t) && At(text, t, ph, words, t.pos, t.line) && EndFits(ph, e)
      && Stands(text, t.pos, EndText(e))
    requires (ph == BehindQuote ==> words != []) && (!e.Stop? ==> t.pos + |EndText(e)| == |text|)
    ensures Yields(text, s,
      Result(Outcome(Told(ph, words), e), t.pos + |EndText(e)|, t.line + Lines(EndText(e))))
  {
    EndRead(text, t, ph, words, e);
    GoesRead(text, s, t, Result(Outcome(Told(ph, words), e), t.pos + |EndText(e)|, t.line + Lines(EndText(e))));
  }

  lemma YieldsLayout(text: string, s: State, items: seq<Item>, e: End)
    requires At(text, s, Free, [], s.pos, s.line)
    requires Layout(Free, items) && EndFits(Last(Free, items), e) && Stands(text, s.pos, WrittenAll(items) + EndText(e))
    requires !e.Stop? ==> s.pos + |WrittenAll(items)| + |EndText(e)| == |text|
    ensures var all := WrittenAll(items) + EndText(e);
      Yields(text, s, Result(Outcome(WordsOf(items), e), s.pos + |all|, s.line + Lines(all)))
  {
    StandsParts(text, s.pos, WrittenAll(items), EndText(e));
    var t, words := Items(text, s, Free, [], items);
    if Last(Free, items) == BehindQuote { QuoteHasWord(Free, items); }
    assert [] + WordsOf(items) == WordsOf(items);
    ReadsEnd(text, s, t, Last(Free, items), words, e);
    LinesJoin(WrittenAll(items), EndText(e));
  }

  /** A text laid out so, anywhere in a file, is read as the words it is made of, with what ends them. */
  lemma ReadsLayout(text: string, p: nat, line: nat, items: seq<Item>, e: End)
    requires Layout(Free, items) && EndFits(Last(Free, items), e) && Stands(text, p, WrittenAll(items) + EndText(e))
    requires !e.Stop? ==> p + |WrittenAll(items)| + |EndText(e)| == |text|
    ensures var all := WrittenAll(items) + EndText(e);
      ScanAll(text, Begin(p, line)) ==
        Result(Outcome(WordsOf(items), e), p + |all|, line + Lines(all))
  {
    YieldsLayout(text, Begin(p, line), items, e);
    var all := WrittenAll(items) + EndText(e);
    YieldsIs(text, Begin(p, line), Result(Outcome(WordsOf(items), e), p + |all|, line + Lines(all)));
  }

  // Every text is laid out so

  /** Units of a word from p on, as far as they go. */
  lemma {:induction false} AllUnits(text: string, p: nat, style: Style, v: bool) returns (us: seq<Unit>)
    requires p <= |text|
    ensures Stands(text, p, SpellAll(us)) && FitAll(style, v, us)
    ensures var q := p + |SpellAll(us)|;
      q == |text| || (text[q] == '\\' && q + 1 == |text|)
      || (text[q] != '\\' && !Fits(style, DollarAll(v, us), Plain(text[q])))
    decreases |text| - p
  {
    us := [];
    if p < |text| && !(text[p] == '\\' && p + 1 == |text|) {
      var u := if text[p] == '\\' then Escaped(text[p + 1]) else Plain(text[p]);
      if u.Escaped? || Fits(style, v, u) {
        var n := |Spell(u)|;
        var rest := AllUnits(text, p + n, style, Dollar(v, u));
        us := [u] + rest;
        UnitBefore(text, p, u, rest, v);
      }
    }
  }

  lemma UnitBefore(text: string, p: nat, u: Unit, rest: seq<Unit>, v: bool)
    requires p + |Spell(u)| <= |text| && text[p] == Spell(u)[0] && (u.Escaped? ==> text[p + 1] == u.c)
    requires Stands(text, p + |Spell(u)|, SpellAll(rest))
    ensures ([u] + rest)[1..] == rest && Stands(text, p, SpellAll([u] + rest))
    ensures |SpellAll([u] + rest)| == |Spell(u)| + |SpellAll(rest)|
    ensures DollarAll(v, [u] + rest) == DollarAll(Dollar(v, u), rest)
  {
    assert ([u] + rest)[1..] == rest;
    assert text[p..p + |Spell(u)|] == Spell(u);
    StandsJoin(text, p, Spell(u), SpellAll(rest));
  }

  /** The text from p on can be an end or go on with an item there. */
  ghost predicate Continues(text: string, p: nat, ph: Phase) {
    p <= |text| && (ph.BehindBare? ==> ph.units != [] && (p == |text| || IsSpace(text[p]) || Stops(ph, text[p])))
  }

  /** What stands at p: an item, after which the text goes on, or the end. */
  datatype Found = Next(i: Item) | Over(e: End)

  ghost predicate StandsThere(text: string, p: nat, ph: Phase, f: Found) {
    match f
    case Next(i) =>
      Good(i) && Follows(ph, i) && Stands(text, p, Written(i)) && |Written(i)| > 0
      && Continues(text, p + |Written(i)|, Then(i))
    case Over(e) =>
      EndFits(ph, e) && Stands(text, p, EndText(e)) && (!e.Stop? ==> p + |EndText(e)| == |text|)
  }

  lemma {:induction false} CommentEnd(text: string, p: nat) returns (q: nat)
    requires p <= |text|
    ensures p <= q <= |text| && '\n' !in text[p..q] && (q < |text| ==> text[q] == '\n')
    decreases |text| - p
  {
    if p == |text| || text[p] == '\n' {
      q := p;
    } else {
      q := CommentEnd(text, p + 1);
      assert text[p..q] == [text[p]] + text[p + 1..q];
    }
  }

  lemma CommentThere(text: string, p: nat) returns (f: Found)
    requires p < |text| && text[p] == '#'
    ensures StandsThere(text, p, Free, f)
  {
    var q := CommentEnd(text, p + 1);
    var body := text[p + 1..q];
    StandsOne(text, p);
    StandsJoin(text, p, ['#'], body);
    if q < |text| {
      f := Next(Fill(Comment(body)));
      StandsOne(text, q);
      StandsJoin(text, p, ['#'] + body, ['\n']);
    } else {
      f := Over(OpenComment(body));
    }
  }

  lemma QuoteThere(text: string, p: nat, style: Style) returns (f: Found)
    requires p < |text| && style != Bare && text[p] == Mark(style)
    ensures StandsThere(text, p, Free, f)
  {
    var us := AllUnits(text, p + 1, style, false);
    var q := p + 1 + |SpellAll(us)|;
    StandsOne(text, p);
    StandsJoin(text, p, [Mark(style)], SpellAll(us));
    if q < |text| && text[q] != '\\' {
      f := QuoteDone(text, p, style, us);
    } else {
      f := QuoteOpen(text, p, style, us);
    }
  }

  lemma QuoteDone(text: string, p: nat, style: Style, us: seq<Unit>) returns (f: Found)
    requires style != Bare && FitAll(style, false, us) && Stands(text, p, [Mark(style)] + SpellAll(us))
    requires var q := p + 1 + |SpellAll(us)|;
      q < |text| && text[q] != '\\' && !Fits(style, DollarAll(false, us), Plain(text[q]))
    ensures StandsThere(text, p, Free, f)
  {
    var q := p + 1 + |SpellAll(us)|;
    f := Next(Term(Word(style, us)));
    QuotedIs(style, us);
    StandsOne(text, q);
    StandsJoin(text, p, [Mark(style)] + SpellAll(us), [Mark(style)]);
  }

  lemma QuoteOpen(text: string, p: nat, style: Style, us: seq<Unit>) returns (f: Found)
    requires style != Bare && FitAll(style, false, us) && Stands(text, p, [Mark(style)] + SpellAll(us))
    requires var q := p + 1 + |SpellAll(us)|; q == |text| || (text[q] == '\\' && q + 1 == |text|)
    ensures StandsThere(text, p, Free, f)
  {
    var q := p + 1 + |SpellAll(us)|;
    f := Over(OpenWord(style, us, q < |text|));
    if q < |text| {
      StandsOne(text, q);
      StandsJoin(text, p, [Mark(style)] + SpellAll(us), ['\\']);
    } else {
      StandsJoin(text, p, [Mark(style)] + SpellAll(us), "");
    }
  }

  /** A bare word from p on; the first unit is at p. */
  lemma BareThere(text: string, p: nat, ph: Phase) returns (f: Found)
    requires p < |text| && (text[p] == '\\' || Opens(Plain(text[p])))
    requires ph == Free || (ph == BehindQuote && text[p] == ')')
    ensures StandsThere(text, p, ph, f)
  {
    if text[p] == '\\' && p + 1 == |text| {
      f := Over(OpenWord(Bare, [], true));
      assert text[p..p + 1] == ['\\'];
    } else {
      var u := if text[p] == '\\' then Escaped(text[p + 1]) else Plain(text[p]);
      f := BareFrom(text, p, ph, u);
    }
  }

  lemma BareFrom(text: string, p: nat, ph: Phase, u: Unit) returns (f: Found)
    requires p + |Spell(u)| <= |text| && text[p] == Spell(u)[0] && (u.Escaped? ==> text[p + 1] == u.c) && Opens(u)
    requires ph == Free || (ph == BehindQuote && u == Plain(')'))
    ensures StandsThere(text, p, ph, f)
  {
    var rest := AllUnits(text, p + |Spell(u)|, Bare, false);
    UnitBefore(text, p, u, rest, false);
    BareProper(u, rest);
    var us := [u] + rest;
    var q := p + |SpellAll(us)|;
    if q < |text| && text[q] == '\\' {
      f := BareOpen(text, p, ph, us);
    } else {
      f := BareDone(text, p, ph, us);
    }
  }

  lemma BareOpen(text: string, p: nat, ph: Phase, us: seq<Unit>) returns (f: Found)
    requires Proper(Word(Bare, us)) && Stands(text, p, SpellAll(us))
      && (ph == Free || (ph == BehindQuote && us[0] == Plain(')')))
    requires p + |SpellAll(us)| + 1 == |text| && text[p + |SpellAll(us)|] == '\\'
    ensures StandsThere(text, p, ph, f)
  {
    f := Over(OpenWord(Bare, us, true));
    SlashEnd(text, p, us);
  }

  lemma BareDone(text: string, p: nat, ph: Phase, us: seq<Unit>) returns (f: Found)
    requires Proper(Word(Bare, us)) && Stands(text, p, SpellAll(us))
      && (ph == Free || (ph == BehindQuote && us[0] == Plain(')')))
    requires var q := p + |SpellAll(us)|;
      q == |text| || (text[q] != '\\' && !Fits(Bare, DollarAll(false, us[1..]), Plain(text[q])))
    requires |SpellAll(us)| > 0
    ensures StandsThere(text, p, ph, f)
  {
    f := Next(Term(Word(Bare, us)));
  }

  lemma BareProper(u: Unit, rest: seq<Unit>)
    requires Opens(u) && FitAll(Bare, false, rest)
    ensures Proper(Word(Bare, [u] + rest)) && |SpellAll([u] + rest)| > 0
  {
    assert ([u] + rest)[1..] == rest;
  }

  lemma SlashEnd(text: string, p: nat, us: seq<Unit>)
    requires Stands(text, p, SpellAll(us)) && p + |SpellAll(us)| + 1 == |text| && text[p + |SpellAll(us)|] == '\\'
    ensures var t := EndText(OpenWord(Bare, us, true)); Stands(text, p, t) && p + |t| == |text|
  {
    BareEndText(us);
    StandsOne(text, p + |SpellAll(us)|);
    StandsJoin(text, p, SpellAll(us), ['\\']);
  }

  /** The same, kept folded. */
  ghost predicate Standing(text: string, p: nat, ph: Phase, f: Found) {
    forall o :: OpenAll(o) ==> StandsThere(text, p, ph, f)
  }

  lemma Something(text: string, p: nat, ph: Phase) returns (f: Found)
    requires Continues(text, p, ph)
    ensures Standing(text, p, ph, f)
    ensures f.Next? ==> |Written(f.i)| > 0 && Continues(text, p + |Written(f.i)|, Then(f.i))
  {
    f := SomethingThere(text, p, ph);
  }

  lemma SomethingThere(text: string, p: nat, ph: Phase) returns (f: Found)
    requires Continues(text, p, ph)
    ensures StandsThere(text, p, ph, f)
  {
    if p == |text| {
      f := Over(Eof);
    } else if IsSpace(text[p]) {
      f := Next(Fill(Blank(text[p])));
    } else if Stops(ph, text[p]) {
      f := Over(Stop(text[p]));
    } else if ph == BehindQuote {
      f := BareThere(text, p, ph);
    } else if text[p] == '#' {
      f := CommentThere(text, p);
    } else if text[p] == '"' {
      f := QuoteThere(text, p, Double);
    } else if text[p] == '\'' {
      f := QuoteThere(text, p, Single);
    } else {
      f := BareThere(text, p, ph);
    }
  }

  lemma ItemBefore(text: string, p: nat, i: Item, rest: seq<Item>, e: End)
    requires Stands(text, p, Written(i)) && Stands(text, p + |Written(i)|, WrittenAll(rest) + EndText(e))
    ensures ([i] + rest)[1..] == rest && Stands(text, p, WrittenAll([i] + rest) + EndText(e))
    ensures |WrittenAll([i] + rest)| == |Written(i)| + |WrittenAll(rest)|
  {
    assert ([i] + rest)[1..] == rest;
    StandsJoin(text, p, Written(i), WrittenAll(rest) + EndText(e));
    Join3(Written(i), WrittenAll(rest), EndText(e));
  }

  /** The items from p on, and the end behind them. */
  ghost predicate LaidFrom(text: string, p: nat, ph: Phase, items: seq<Item>, e: End) {
    && Layout(ph, items) && EndFits(Last(ph, items), e) && Stands(text, p, WrittenAll(items) + EndText(e))
    && (!e.Stop? ==> p + |WrittenAll(items)| + |EndText(e)| == |text|)
  }

  lemma OnlyEnd(text: string, p: nat, ph: Phase, f: Found)
    requires f.Over? && Standing(text, p, ph, f)
    ensures LaidFrom(text, p, ph, [], f.e)
  {
    assert OpenAll(0);
    assert WrittenAll([]) + EndText(f.e) == EndText(f.e);
  }

  lemma ItemFirst(text: string, p: nat, ph: Phase, f: Found, rest: seq<Item>, e: End)
    requires f.Next? && Standing(text, p, ph, f) && LaidFrom(text, p + |Written(f.i)|, Then(f.i), rest, e)
    ensures LaidFrom(text, p, ph, [f.i] + rest, e)
  {
    assert OpenAll(0);
    ItemBefore(text, p, f.i, rest, e);
  }

  lemma {:induction false} LaidOut(text: string, p: nat, ph: Phase) returns (items: seq<Item>, e: End)
    requires Continues(text, p, ph)
    ensures LaidFrom(text, p, ph, items, e)
    decreases |text| - p
  {
    var f := Something(text, p, ph);
    if f.Over? {
      items, e := [], f.e;
      OnlyEnd(text, p, ph, f);
    } else {
      var rest;
      rest, e := LaidOut(text, p + |Written(f.i)|, Then(f.i));
      items := [f.i] + rest;
      ItemFirst(text, p, ph, f, rest, e);
    }
  }

  /** So any text, from any place on, is one such layout and is read as such, if there is no limit. */
  lemma EveryText(text: string, p: nat, line: nat) returns (items: seq<Item>, e: End)
    requires p <= |text|
    ensures LaidFrom(text, p, Free, items, e)
    ensures var all := WrittenAll(items) + EndText(e);
      ScanAll(text, Begin(p, line)) == Result(Outcome(WordsOf(items), e), p + |all|, line + Lines(all))
  {
    items, e := LaidOut(text, p, Free);
    ReadsLayout(text, p, line, items, e);
  }

  // The limit

  /** What is read since `start` never exceeds all that is read. */
  lemma {:induction false} LongestWithin(text: string, s: State)
    requires s.start <= s.pos < |text|
    ensures Longest(text, s) < ScanAll(text, s).pos - s.start
    decreases |text| - s.pos
  {
    var step := LongestStep(text, s);
    if step.More? && step.s.pos < |text| { LongestWithin(text, step.s); }
  }

  lemma LongestStep(text: string, s: State) returns (step: Step)
    requires s.start <= s.pos < |text|
    ensures step == Feed(s, text[s.pos], text[s.start..s.pos + 1])
    ensures step.Done? ==> Longest(text, s) == s.pos - s.start && ScanAll(text, s).pos == s.pos + 1
    ensures step.More? ==> s.start <= step.s.start <= step.s.pos == s.pos + 1
    ensures step.More? ==> ScanAll(text, s) == ScanAll(text, step.s)
    ensures step.More? ==> Longest(text, s) == if Longest(text, step.s) > s.pos - s.start then Longest(text, step.s)
      else s.pos - s.start
    ensures step.More? && step.s.pos == |text| ==> Longest(text, s) == s.pos - s.start && ScanAll(text, s).pos == |text|
  {
    var raw := text[s.start..s.pos + 1];
    OneFarther(s, text[s.pos], raw);
    step := Feed(s, text[s.pos], raw);
  }

  /** Whatever is not longer than the buffer is read so by the code. */
  lemma ShortIsRead(text: string, p: nat, line: nat, items: seq<Item>, e: End)
    requires Layout(Free, items) && EndFits(Last(Free, items), e) && Stands(text, p, WrittenAll(items) + EndText(e))
    requires !e.Stop? ==> p + |WrittenAll(items)| + |EndText(e)| == |text|
    requires |WrittenAll(items) + EndText(e)| <= BUFFER
    ensures var all := WrittenAll(items) + EndText(e);
      Scan(text, Begin(p, line)) == Result(Outcome(WordsOf(items), e), p + |all|, line + Lines(all))
  {
    ReadsLayout(text, p, line, items, e);
    OnlyTheLimit(text, Begin(p, line));
    if p < |text| { LongestWithin(text, Begin(p, line)); }
  }

  // Words that are their own text

  predicate Kept(u: Unit) { u.Escaped? ==> !Changes(u.c) }

  lemma {:induction false} NotLonger(us: seq<Unit>)
    ensures |Value(us)| <= |SpellAll(us)|
  {
    if us != [] { NotLonger(us[1..]); }
  }

  lemma OwnStep(u: Unit, a: string, b: string)
    requires |a| <= |b|
    ensures Worth(u) + a == Spell(u) + b <==> Kept(u) && a == b
  {
    if Worth(u) + a == Spell(u) + b {
      assert |Worth(u)| == |Spell(u)|;
      assert a == (Worth(u) + a)[|Worth(u)|..] == (Spell(u) + b)[|Spell(u)|..] == b;
    }
  }

  predicate AllKept(us: seq<Unit>) { forall i :: 0 <= i < |us| ==> Kept(us[i]) }

  lemma KeptFirst(us: seq<Unit>)
    requires us != []
    ensures AllKept(us) <==> Kept(us[0]) && AllKept(us[1..])
  {
    if Kept(us[0]) && AllKept(us[1..]) {
      forall i | 0 <= i < |us| ensures Kept(us[i]) { if i > 0 { assert Kept(us[1..][i - 1]); } }
    }
  }

  /** A word stands for its own text exactly if it has no escape of a quote, a backslash, t, r or n. */
  lemma {:induction false} OwnText(us: seq<Unit>)
    ensures Value(us) == SpellAll(us) <==> AllKept(us)
  {
    if us != [] {
      OwnText(us[1..]);
      NotLonger(us[1..]);
      OwnStep(us[0], Value(us[1..]), SpellAll(us[1..]));
      KeptFirst(us);
    }
  }
}
