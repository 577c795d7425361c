/** Writing a directive so that ngx_conf_read_token reads it back. */
module ConfPrint {
  import opened ConfToken

  /** Reading without a limit on the length of a parameter. */
  function ScanAll(text: string, s: State): Result
    requires s.start <= s.pos <= |text|
    decreases |text| - s.pos
  {
    if s.pos == |text| then
      Result(if s.words != [] || !s.lastSpace then UnexpectedEnd else FileDone, s.pos, s.line)
    else
      match Feed(s, text[s.pos], text[s.start..s.pos + 1])
      case Done(token) => Result(token, s.pos + 1, if text[s.pos] == '\n' then s.line + 1 else s.line)
      case More(s') => ScanAll(text, s')
  }

  /** The most characters there are since `start` when one more is to be read, without a limit. */
  function Longest(text: string, s: State): (n: nat)
    requires s.start <= s.pos <= |text|
    ensures s.pos < |text| ==> n >= s.pos - s.start
    decreases |text| - s.pos
  {
    if s.pos == |text| then 0
    else
      match Feed(s, text[s.pos], text[s.start..s.pos + 1])
      case Done(_) => s.pos - s.start
      case More(s') => var n := Longest(text, s'); if n > s.pos - s.start then n else s.pos - s.start
  }

  /** One character brings `start` at most one character farther behind. */
  lemma OneFarther(s: State, c: char, raw: string)
    requires s.start <= s.pos
    ensures var step := Feed(s, c, raw);
      step.More? ==> step.s.pos == s.pos + 1 && (step.s.start == s.start || s.pos <= step.s.start <= s.pos + 1)
  {
    var t := Advance(s, c);
    if !t.comment && !t.quoted {
      BetweenFarther(t, c);
      BetweenFarther(t.(lastSpace := true, needSpace := false), c);
      InWordStays(t, c, raw);
    }
  }

  lemma BetweenFarther(t: State, c: char)
    requires t.pos > 0
    ensures var step := Between(t, c);
      step.More? ==> step.s.pos == t.pos && (step.s.start == t.start || t.pos - 1 <= step.s.start <= t.pos)
  {
    if !IsSpace(c) && !Ends(c) { BegunNear(Started(t), c); }
  }

  lemma BegunNear(s: State, c: char)
    ensures Begun(s, c).pos == s.pos && s.start <= Begun(s, c).start <= s.start + 1
  {
    if c == '#' {
    } else if c == '\\' {
    } else if c == '"' {
    } else if c == '\'' {
    } else {
    }
  }

  lemma InWordStays(t: State, c: char, raw: string)
    ensures var step := InWord(t, c, raw); step.More? ==> step.s.pos == t.pos && step.s.start == t.start
  {}

  /**
   * The buffer makes no difference other than that something is refused as too long, and that happens exactly if at
   * some point BUFFER characters have been read since the last `start`: the beginning of a word, of a comment, or of a
   * character that ends a directive, or of the text itself; spaces and what follows a comment count on.
   */
  lemma {:induction false} OnlyTheLimit(text: string, s: State)
    requires s.start <= s.pos <= |text| && s.pos - s.start <= BUFFER
    ensures Scan(text, s).token.TooLong? <==> Longest(text, s) >= BUFFER
    ensures Scan(text, s).token.TooLong? || Scan(text, s) == ScanAll(text, s)
    decreases |text| - s.pos
  {
    if s.pos < |text| && s.pos - s.start != BUFFER {
      var raw := text[s.start..s.pos + 1];
      OneFarther(s, text[s.pos], raw);
      NotTooLong(s, text[s.pos], raw);
      var step := Feed(s, text[s.pos], raw);
      if step.More? { OnlyTheLimit(text, step.s); }
    }
  }

  lemma NotTooLong(s: State, c: char, raw: string)
    ensures var step := Feed(s, c, raw); step.Done? ==> !step.token.TooLong?
  {}

  lemma {:induction false} CommentGoesOn(text: string, s: State)
    requires s.comment && s.start <= s.pos <= s.start + BUFFER < |text| && !s.double && !s.single
    requires forall j :: s.pos <= j < s.start + BUFFER ==> text[j] != '\n'
    ensures Scan(text, s).token == TooLong(' ')
    decreases s.start + BUFFER - s.pos
  {
    if s.pos < s.start + BUFFER { CommentGoesOn(text, Advance(s, text[s.pos])); }
  }

  /** A comment of BUFFER characters or more is refused, like a parameter. */
  lemma LongComment(text: string, p: nat, line: nat)
    requires p + BUFFER < |text| && text[p] == '#' && forall j :: p < j < p + BUFFER ==> text[j] != '\n'
    ensures Scan(text, Begin(p, line)).token == TooLong(' ')
  {
    var s := Begin(p, line);
    ScanStep(text, s);
    CommentGoesOn(text, Feed(s, '#', text[p..p + 1]).s);
  }

  function EscapeChar(c: char): string { if c == '"' || c == '\\' then ['\\', c] else [c] }

  function Escape(w: string): string {
    if w == "" then "" else EscapeChar(w[0]) + Escape(w[1..])
  }

  function Quote(w: string): string { ['"'] + Escape(w) + ['"'] }

  /** The words quoted, one space between them, and the terminator. */
  function Print(words: seq<string>, end: char): string
    requires words != []
  {
    if |words| == 1 then Quote(words[0]) + [end] else Quote(words[0]) + [' '] + Print(words[1..], end)
  }

  function Lines(w: string): nat {
    if w == "" then 0 else (if w[0] == '\n' then 1 else 0) + Lines(w[1..])
  }

  function AllLines(words: seq<string>): nat {
    if words == [] then 0 else Lines(words[0]) + AllLines(words[1..])
  }

  /** `t` stands at place `p` of the text. */
  predicate Stands(text: string, p: nat, t: string) { p + |t| <= |text| && text[p..p + |t|] == t }

  lemma StandsParts(text: string, p: nat, a: string, b: string)
    requires Stands(text, p, a + b)
    ensures Stands(text, p, a) && Stands(text, p + |a|, b)
  {
    assert text[p..p + |a|] == (a + b)[..|a|];
    assert text[p + |a|..p + |a| + |b|] == (a + b)[|a|..];
  }

  lemma StandsAt(text: string, p: nat, t: string, i: nat)
    requires Stands(text, p, t) && i < |t|
    ensures p + i < |text| && text[p + i] == t[i]
  {
    assert text[p..p + |t|][i] == text[p + i];
  }

  // A quoted word is undone by the copying loop

  /** From place m of the whole on, as from place src of what stands behind its first n characters. */
  lemma {:induction false} UnescapeSuffix(whole: string, raw: string, n: nat, src: nat, m: nat)
    requires |whole| == n + |raw| && whole[n..] == raw && m == n + src
    ensures Unescape(whole, m) == Unescape(raw, src)
    decreases |raw| - src
  {
    if src + 1 < |raw| {
      assert whole[m] == whole[n..][src] && whole[m + 1] == whole[n..][src + 1];
      PieceAlike(whole, m, raw, src);
      var k := Piece(raw, src).1;
      UnescapeSuffix(whole, raw, n, src + k, m + k);
    }
  }

  lemma PieceAlike(a: string, i: nat, b: string, j: nat)
    requires i + 1 < |a| && j + 1 < |b| && a[i] == b[j] && a[i + 1] == b[j + 1]
    ensures Piece(a, i) == Piece(b, j)
  {}

  lemma {:induction false} Undone(w: string)
    ensures Unescape(Escape(w) + ['"'], 0) == w
  {
    if w != "" {
      var c, rest := EscapeChar(w[0]), Escape(w[1..]) + ['"'];
      assert Escape(w) + ['"'] == c + rest;
      assert Piece(c + rest, 0) == (w[0], |c|) by { assert |rest| > 0; }
      UnescapeSuffix(c + rest, rest, |c|, 0, |c|);
      Undone(w[1..]);
      assert w == [w[0]] + w[1..];
    }
  }

  // The scan through a quoted word

  ghost predicate Open(k: int) { true }

  /** Reading on from `s` is the same as reading on from `t`. Kept folded. */
  ghost predicate Leads(text: string, s: State, t: State) {
    && s.start <= s.pos <= |text| && t.start <= t.pos <= |text|
    && forall k :: Open(k) ==> Scan(text, s) == Scan(text, t)
  }

  lemma LeadsNone(text: string, s: State)
    requires s.start <= s.pos <= |text|
    ensures Leads(text, s, s)
  {}

  lemma LeadsOne(text: string, s: State, t: State)
    requires s.start <= s.pos < |text| && s.pos - s.start < BUFFER
      && Feed(s, text[s.pos], text[s.start..s.pos + 1]) == More(t)
    ensures Leads(text, s, t)
  {
    ScanStep(text, s);
  }

  lemma LeadsOn(text: string, s: State, t: State, u: State)
    requires Leads(text, s, t) && Leads(text, t, u)
    ensures Leads(text, s, u)
  {
    assert Open(0);
  }

  /** Reading on from `s` ends with `r`. Kept folded. */
  ghost predicate Reads(text: string, s: State, r: Result) {
    s.start <= s.pos <= |text| && forall k :: Open(k) ==> Scan(text, s) == r
  }

  lemma LeadsReads(text: string, s: State, t: State, r: Result)
    requires Leads(text, s, t) && Reads(text, t, r)
    ensures Reads(text, s, r)
  {
    assert Open(0);
  }

  /** Inside double quotes, nothing pending. */
  predicate Quoting(s: State) {
    s.double && !s.needSpace && !s.lastSpace && !s.comment && !s.quoted && !s.single && s.start <= s.pos
  }

  /** Some characters further, with so many line feeds among them. */
  function Moved(s: State, n: nat, lines: nat, variable: bool): State {
    s.(pos := s.pos + n, line := s.line + lines, variable := variable)
  }

  lemma LinesOne(c: char)
    ensures Lines([c]) == if c == '\n' then 1 else 0
  {
    assert [c][1..] == [];
  }

  lemma PlainChar(text: string, s: State, c: char)
    requires Quoting(s) && Stands(text, s.pos, [c]) && c != '"' && c != '\\' && s.pos - s.start < BUFFER
    ensures Leads(text, s, Moved(s, 1, Lines([c]), c == '$' || (c == '{' && s.variable)))
  {
    StandsAt(text, s.pos, [c], 0);
    LinesOne(c);
    LeadsOne(text, s, Moved(s, 1, Lines([c]), c == '$' || (c == '{' && s.variable)));
  }

  lemma EscapedChar(text: string, s: State, c: char)
    requires Quoting(s) && Stands(text, s.pos, ['\\', c]) && c != '\n' && s.pos + 1 - s.start < BUFFER
    ensures Leads(text, s, Moved(s, 2, 0, false))
  {
    StandsAt(text, s.pos, ['\\', c], 0);
    StandsAt(text, s.pos, ['\\', c], 1);
    var s1 := s.(pos := s.pos + 1, variable := false, quoted := true);
    LeadsOne(text, s, s1);
    LeadsOne(text, s1, Moved(s, 2, 0, false));
    LeadsOn(text, s, s1, Moved(s, 2, 0, false));
  }

  /** One character of the word, plain or escaped. */
  lemma OneChar(text: string, s: State, c: char) returns (v: bool)
    requires Quoting(s) && Stands(text, s.pos, EscapeChar(c)) && s.pos + 1 - s.start < BUFFER
    ensures Leads(text, s, Moved(s, |EscapeChar(c)|, Lines([c]), v))
  {
    if c == '"' || c == '\\' {
      v := false;
      EscapedChar(text, s, c);
      LinesOne(c);
    } else {
      v := c == '$' || (c == '{' && s.variable);
      PlainChar(text, s, c);
    }
  }

  lemma Unrolled(w: string)
    requires w != ""
    ensures Escape(w) == EscapeChar(w[0]) + Escape(w[1..]) && Lines(w) == Lines([w[0]]) + Lines(w[1..])
  {
    LinesOne(w[0]);
  }

  lemma {:induction false} ManyChars(text: string, s: State, w: string) returns (v: bool)
    requires Quoting(s) && Stands(text, s.pos, Escape(w)) && s.pos - s.start + |Escape(w)| < BUFFER
    ensures Leads(text, s, Moved(s, |Escape(w)|, Lines(w), v))
    decreases |w|
  {
    if w == "" {
      v := s.variable;
      assert Moved(s, 0, 0, v) == s;
      LeadsNone(text, s);
    } else {
      var c, rest := w[0], w[1..];
      Unrolled(w);
      StandsParts(text, s.pos, EscapeChar(c), Escape(rest));
      var v1 := OneChar(text, s, c);
      var s1 := Moved(s, |EscapeChar(c)|, Lines([c]), v1);
      v := ManyChars(text, s1, rest);
      assert Moved(s1, |Escape(rest)|, Lines(rest), v) == Moved(s, |Escape(w)|, Lines(w), v);
      LeadsOn(text, s, s1, Moved(s, |Escape(w)|, Lines(w), v));
    }
  }

  /** Between words: the next character starts a word or ends the directive. */
  predicate Waiting(s: State) {
    s.lastSpace && !s.needSpace && !s.comment && !s.quoted && !s.double && !s.single && s.start <= s.pos
  }

  /** Behind a quoted word. */
  function AfterWord(s: State, w: string): State {
    s.(words := s.words + [w], start := s.pos + 1, startLine := s.line, pos := s.pos + |Quote(w)|,
      line := s.line + Lines(w),
       lastSpace := false, needSpace := true, variable := false)
  }

  lemma OneWord(text: string, s: State, w: string)
    requires Waiting(s) && Stands(text, s.pos, Quote(w)) && s.pos - s.start < BUFFER && |Escape(w)| < BUFFER
    ensures Leads(text, s, AfterWord(s, w))
  {
    var q := s.pos;
    StandsParts(text, q, ['"'] + Escape(w), ['"']);
    StandsParts(text, q, ['"'], Escape(w));
    StandsAt(text, q, ['"'], 0);
    var s1 := s.(start := q + 1, startLine := s.line, pos := q + 1, double := true, lastSpace := false);
    LeadsOne(text, s, s1);
    var v := ManyChars(text, s1, w);
    var s2 := Moved(s1, |Escape(w)|, Lines(w), v);
    LeadsOn(text, s, s1, s2);
    CloseQuote(text, s2, w);
    assert s2.(double := false, needSpace := true, variable := false, words := s2.words + [w],
      pos := s2.pos + 1) == AfterWord(s, w);
    LeadsOn(text, s, s2, AfterWord(s, w));
  }

  lemma CloseQuote(text: string, s: State, w: string)
    requires Quoting(s) && s.start + |Escape(w)| == s.pos && Stands(text, s.start, Escape(w))
      && Stands(text, s.pos, ['"']) && |Escape(w)| < BUFFER
    ensures Leads(text, s,
      s.(double := false, needSpace := true, variable := false, words := s.words + [w], pos := s.pos + 1))
  {
    StandsAt(text, s.pos, ['"'], 0);
    var raw := text[s.start..s.pos + 1];
    assert raw == text[s.start..s.pos] + [text[s.pos]];
    assert raw == Escape(w) + ['"'];
    Undone(w);
    LeadsOne(text, s,
      s.(double := false, needSpace := true, variable := false, words := s.words + [w], pos := s.pos + 1));
  }

  /** What reading the directive gives. */
  function Ended(words: seq<string>, end: char): Token {
    if end == '{' then BlockStart(words) else Directive(words)
  }

  /** The end of a directive behind a quoted word. */
  lemma End(text: string, s: State, w: string, end: char)
    requires Waiting(s) && Stands(text, s.pos, Quote(w) + [end]) && s.pos - s.start < BUFFER
      && |Escape(w)| + 1 < BUFFER && (end == ';' || end == '{')
    ensures Reads(text, s, Result(Ended(s.words + [w], end), s.pos + |Quote(w)| + 1, s.line + Lines(w)))
  {
    StandsParts(text, s.pos, Quote(w), [end]);
    OneWord(text, s, w);
    StandsAt(text, s.pos + |Quote(w)|, [end], 0);
    ScanStep(text, AfterWord(s, w));
    LeadsReads(text, s, AfterWord(s, w), Result(Ended(s.words + [w], end), s.pos + |Quote(w)| + 1, s.line + Lines(w)));
  }

  /** The space between two words. */
  lemma Gap(text: string, s: State, w: string)
    requires Waiting(s) && Stands(text, s.pos, Quote(w) + [' ']) && s.pos - s.start < BUFFER && |Escape(w)| + 1 < BUFFER
    ensures Leads(text, s, AfterWord(s, w).(lastSpace := true, needSpace := false, pos := s.pos + |Quote(w)| + 1))
  {
    StandsParts(text, s.pos, Quote(w), [' ']);
    OneWord(text, s, w);
    StandsAt(text, s.pos + |Quote(w)|, [' '], 0);
    var t := AfterWord(s, w);
    var u := t.(lastSpace := true, needSpace := false, pos := t.pos + 1);
    LeadsOne(text, t, u);
    LeadsOn(text, s, t, u);
  }

  lemma Regroup(a: seq<string>, b: seq<string>)
    requires b != []
    ensures (a + [b[0]]) + b[1..] == a + b
  {}

  lemma {:induction false} ReadsBackFrom(text: string, s: State, words: seq<string>, end: char)
    requires Waiting(s) && words != [] && (end == ';' || end == '{') && Stands(text, s.pos, Print(words, end))
      && s.pos - s.start < BUFFER
    requires forall i :: 0 <= i < |words| ==> |Escape(words[i])| + 2 < BUFFER
    ensures Reads(text, s, Result(Ended(s.words + words, end), s.pos + |Print(words, end)|, s.line + AllLines(words)))
    decreases |words|
  {
    var w := words[0];
    if |words| == 1 {
      End(text, s, w, end);
      assert words == [w] && AllLines(words) == Lines(w) by { assert words[1..] == []; }
    } else {
      var rest := words[1..];
      StandsParts(text, s.pos, Quote(w) + [' '], Print(rest, end));
      Gap(text, s, w);
      var t := AfterWord(s, w).(lastSpace := true, needSpace := false, pos := s.pos + |Quote(w)| + 1);
      ReadsBackFrom(text, t, rest, end);
      Regroup(s.words, words);
      LeadsReads(text, s, t,
        Result(Ended(s.words + words, end), s.pos + |Print(words, end)|, s.line + AllLines(words)));
    }
  }

  /**
   * Any words, quoted and escaped, are read back as they were, with the terminator, wherever they stand in a file. The
   * words must be short enough for the buffer.
   */
  lemma ReadsBack(text: string, p: nat, line: nat, words: seq<string>, end: char)
    requires words != [] && (end == ';' || end == '{') && Stands(text, p, Print(words, end))
    requires forall i :: 0 <= i < |words| ==> |Escape(words[i])| + 2 < BUFFER
    ensures Scan(text, Begin(p, line)) == Result(Ended(words, end), p + |Print(words, end)|, line + AllLines(words))
  {
    ReadsBackFrom(text, Begin(p, line), words, end);
    assert [] + words == words;
    assert Open(0);
  }
}
