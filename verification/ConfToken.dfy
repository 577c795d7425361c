/** ngx_conf_read_token of ngx_conf_file.c: reading one directive of a configuration file. */
module ConfToken {

  /** NGX_CONF_BUFFER */
  const BUFFER := 4096

  /** What one call returns. */
  datatype Token =
    | Directive(words: seq<string>)
    | BlockStart(words: seq<string>)
    | BlockDone
    | FileDone
    | UnexpectedEnd
    | Unexpected(ch: char)
    | TooLong(quote: char)

  /** A token, the place behind it, and the line count there. */
  datatype Result = Result(token: Token, pos: nat, line: nat)

  /** The local variables of the loop. `start` and `pos` are places in the text. */
  datatype State = State(
    words: seq<string>, start: nat, startLine: nat, pos: nat, line: nat,
    needSpace: bool, lastSpace: bool, comment: bool, variable: bool, quoted: bool, single: bool, double: bool)

  function Begin(pos: nat, line: nat): State {
    State([], pos, line, pos, line, false, true, false, false, false, false, false)
  }

  predicate IsSpace(c: char) { c == ' ' || c == '\t' || c == '\r' || c == '\n' }

  /**
   * The character that the text at `src` stands for in a word, and how many characters that takes
   * (ngx_conf_file.c:688-713).
   */
  function Piece(raw: string, src: nat): (r: (char, nat))
    requires src + 1 < |raw|
    ensures r.1 > 0
  {
    if raw[src] != '\\' then (raw[src], 1)
    else match raw[src + 1]
      case '"' => ('"', 2)
      case '\'' => ('\'', 2)
      case '\\' => ('\\', 2)
      case 't' => ('\t', 2)
      case 'r' => ('\r', 2)
      case 'n' => ('\n', 2)
      case _ => ('\\', 1)
  }

  /** The word copied out of `raw`, which ends with the character that ended the word. */
  function Unescape(raw: string, src: nat): string
    decreases |raw| - src
  {
    if src + 1 >= |raw| then "" else [Piece(raw, src).0] + Unescape(raw, src + Piece(raw, src).1)
  }

  datatype Step = Done(token: Token) | More(s: State)

  /** A character is taken: a line feed counts a line and ends a comment (ngx_conf_file.c:532-540). */
  function Advance(s: State, c: char): State {
    s.(pos := s.pos + 1, line := if c == '\n' then s.line + 1 else s.line, comment := s.comment && c != '\n')
  }

  /** The character `c` at `s.pos`; `raw` is the text from `s.start` up to and with it. */
  function Feed(s0: State, c: char, raw: string): Step {
    var s := Advance(s0, c);
    if s.comment then More(s)
    else if s.quoted then More(s.(quoted := false))
    else Sorted(s, c, raw)
  }

  /** A character that is neither in a comment nor quoted. */
  function Sorted(s: State, c: char, raw: string): Step
    requires s.pos > 0
  {
    if s.needSpace then AfterQuote(s, c)
    else if s.lastSpace then Between(s, c)
    else InWord(s, c, raw)
  }

  /** Behind a quoted word there must be a space or the end of the directive (ngx_conf_file.c:551-575). */
  function AfterQuote(s: State, c: char): Step
    requires s.pos > 0
  {
    if IsSpace(c) then More(s.(lastSpace := true, needSpace := false))
    else if c == ';' then Done(Directive(s.words))
    else if c == '{' then Done(BlockStart(s.words))
    else if c == ')' then Between(s.(lastSpace := true, needSpace := false), c)
    else Done(Unexpected(c))
  }

  /** Between words (ngx_conf_file.c:577-633). */
  function Between(s0: State, c: char): Step
    requires s0.pos > 0
  {
    if IsSpace(c) then More(s0)
    else
      match c
      case ';' => Done(if s0.words == [] then Unexpected(c) else Directive(s0.words))
      case '{' => Done(if s0.words == [] then Unexpected(c) else BlockStart(s0.words))
      case '}' => Done(if s0.words != [] then Unexpected(c) else BlockDone)
      case _ => More(Begun(Started(s0), c))
  }

  /** A word or a comment starts with the character just read. */
  function Started(s: State): State
    requires s.pos > 0
  {
    s.(start := s.pos - 1, startLine := s.line)
  }

  predicate Ends(c: char) { c == ';' || c == '{' || c == '}' }

  /** What begins with a character that ends nothing (ngx_conf_file.c:609-632). */
  function Begun(s: State, c: char): State {
    match c
    case '#' => s.(comment := true)
    case '\\' => s.(quoted := true, lastSpace := false)
    case '"' => s.(start := s.start + 1, double := true, lastSpace := false)
    case '\'' => s.(start := s.start + 1, single := true, lastSpace := false)
    case _ => s.(lastSpace := false)
  }

  /** Inside a word (ngx_conf_file.c:635-727). */
  function InWord(s: State, c: char, raw: string): Step {
    if c == '{' && s.variable then More(s)
    else if c == '\\' then More(s.(variable := false, quoted := true))
    else if c == '$' then More(s.(variable := true))
    else EndWord(s.(variable := false), c, raw)
  }

  /** Whether the word ends here (ngx_conf_file.c:652-727). */
  function EndWord(s: State, c: char, raw: string): Step {
    var w := s.words + [Unescape(raw, 0)];
    if s.double then
      More(if c == '"' then s.(double := false, needSpace := true, words := w) else s)
    else if s.single then
      More(if c == '\'' then s.(single := false, needSpace := true, words := w) else s)
    else if c == ';' then Done(Directive(w))
    else if c == '{' then Done(BlockStart(w))
    else if IsSpace(c) then More(s.(lastSpace := true, words := w))
    else More(s)
  }

  /** Reading a directive from the whole text, refusing a stretch of BUFFER characters since `start`. */
  function Scan(text: string, s: State): Result
    requires s.start <= s.pos <= |text|
    decreases |text| - s.pos
  {
    if s.pos == |text| then
      Result(if s.words != [] || !s.lastSpace then UnexpectedEnd else FileDone, s.pos, s.line)
    else if s.pos - s.start == BUFFER then
      Result(TooLong(if s.double then '"' else if s.single then '\'' else ' '), s.pos, s.startLine)
    else
      match Feed(s, text[s.pos], text[s.start..s.pos + 1])
      case Done(token) => Result(token, s.pos + 1, if text[s.pos] == '\n' then s.line + 1 else s.line)
      case More(s') => Scan(text, s')
  }

  lemma ScanStep(text: string, s: State)
    requires s.start <= s.pos < |text| && s.pos - s.start < BUFFER
    ensures var step := Feed(s, text[s.pos], text[s.start..s.pos + 1]);
      if step.Done? then
        Scan(text, s) == Result(step.token, s.pos + 1, if text[s.pos] == '\n' then s.line + 1 else s.line)
      else step.s.start <= step.s.pos == s.pos + 1 && Scan(text, s) == Scan(text, step.s)
  {}

  /** One turn of the copying loop (ngx_conf_file.c:688-713). */
  method CopyPiece(raw: string, src: nat) returns (c: char, src': nat)
    requires src + 1 < |raw|
    ensures c == Piece(raw, src).0 && src' == src + Piece(raw, src).1
  {
    src' := src;
    if raw[src] == '\\' {
      var next := raw[src + 1];
      if next == '"' || next == '\'' || next == '\\' {
        src' := src' + 1;
      } else if next == 't' {
        return '\t', src' + 2;
      } else if next == 'r' {
        return '\r', src' + 2;
      } else if next == 'n' {
        return '\n', src' + 2;
      }
    }
    c := raw[src'];
    src' := src' + 1;
  }

  /** The copying loop for one word (ngx_conf_file.c:684-716). */
  method CopyWord(raw: string) returns (word: string)
    ensures word == Unescape(raw, 0)
  {
    word := "";
    var src := 0;
    while src + 1 < |raw|
      invariant word + Unescape(raw, src) == Unescape(raw, 0)
      decreases |raw| - src
    {
      var c, src' := CopyPiece(raw, src);
      Regroup(word, c, Unescape(raw, src'));
      word := word + [c];
      src := src';
    }
  }

  lemma Regroup(a: string, c: char, b: string)
    ensures a + ([c] + b) == (a + [c]) + b
  {}

  lemma Joined(text: string, base: nat, start: nat, offset: nat, size: nat, held: string, len: nat)
    requires base + start + len == offset && offset + size <= |text| && held == text[base..offset]
    ensures held[start..start + len] + text[offset..offset + size] == text[base + start..offset + size]
  {
    assert held[start..start + len] == text[base + start..offset];
    assert text[base + start..offset] + text[offset..offset + size] == text[base + start..offset + size];
  }

  lemma Slices(held: string, text: string, base: nat, start: nat, pos: nat)
    requires start <= pos <= |held| && base + |held| <= |text| && held == text[base..base + |held|]
    ensures held[start..pos] == text[base + start..base + pos]
  {
    forall i | 0 <= i < pos - start ensures held[start..pos][i] == text[base + start..base + pos][i] {
      assert held[start + i] == text[base + (start + i)];
    }
  }

  /** Kept folded: a proof that needs it calls Same. */
  ghost predicate Holds(a: string, b: string) { |a| == |b| && forall i :: 0 <= i < |a| ==> Char(a, b, i) }

  predicate Char(a: string, b: string, i: nat)
    requires i < |a| == |b|
  {
    a[i] == b[i]
  }

  lemma Same(a: string, b: string)
    ensures Holds(a, b) <==> a == b
  {
    if Holds(a, b) {
      forall i | 0 <= i < |a| ensures a[i] == b[i] { assert Char(a, b, i); }
    }
  }

  /**
   * ngx_conf_file_t with its buffer. The flags that ngx_conf_read_token keeps in local variables are fields, set at
   * each call.
   */
  class ConfFile {
    /** The contents of the file. */
    const text: string
    const buf: array<char>
    var pos: nat
    var last: nat
    var offset: nat
    var line: nat
    /** Where in the file the buffer begins. */
    ghost var base: nat

    var words: seq<string>
    var start: nat
    var startLine: nat
    var needSpace: bool
    var lastSpace: bool
    var comment: bool
    var variable: bool
    var quoted: bool
    var single: bool
    var double: bool

    /** The buffer holds the stretch of the file that ends at `offset`. */
    ghost predicate Window()
      reads this`last, this`offset, this`base, buf
    {
      buf.Length == BUFFER && last <= BUFFER && base + last == offset <= |text|
        && Holds(buf[..last], text[base..offset])
    }

    ghost predicate Valid()
      reads this`start, this`pos, this`last, this`offset, this`base, buf
    {
      Window() && start <= pos <= last
    }

    /** The state of the loop, in terms of places in the text. */
    ghost function Abs(): State
      reads this
    {
      State(words, base + start, startLine, base + pos, line, needSpace, lastSpace, comment, variable, quoted, single,
        double)
    }

    constructor (t: string)
      ensures Valid() && fresh(buf) && text == t && base + pos == 0 && line == 1
    {
      text, pos, last, offset, line, base := t, 0, 0, 0, 1, 0;
      words, start, startLine, needSpace, lastSpace, comment := [], 0, 1, false, true, false;
      variable, quoted, single, double := false, false, false, false;
      buf := new char[BUFFER];
      Same([], []);
    }

    /** `ngx_memmove(b->start, start, len)` */
    method Slide(start: nat, len: nat)
      requires start + len <= buf.Length
      modifies buf
      ensures buf[..len] == old(buf[start..start + len])
    {
      forall i | 0 <= i < len {
        buf[i] := buf[start + i];
      }
    }

    /** ngx_read_file */
    method Read(len: nat, size: nat)
      requires len + size <= buf.Length && offset + size <= |text|
      modifies buf
      ensures buf[..len + size] == old(buf[..len]) + text[offset..offset + size]
    {
      forall i | 0 <= i < size {
        buf[len + i] := text[offset + i];
      }
    }

    /** The buffer after a refill: what is being read, then the next stretch of the file. */
    method Shift(len: nat, size: nat)
      requires Valid() && len == last - start && len + size <= BUFFER && offset + size <= |text|
      modifies buf
      ensures buf[..len + size] == text[base + start..offset + size]
    {
      ghost var held := buf[..last];
      Same(held, text[base..offset]);
      Slide(start, len);
      assert old(buf[start..start + len]) == held[start..start + len];
      Read(len, size);
      Joined(text, base, start, offset, size, held, len);
    }

    /** Move what is being read to the front of the buffer and fill up the rest (ngx_conf_file.c:502-529). */
    method Refill()
      requires Valid() && pos == last && offset < |text| && pos - start < BUFFER
      modifies buf, this`pos, this`last, this`offset, this`base, this`start
      ensures Valid() && Abs() == old(Abs()) && pos < last
    {
      var len := pos - start;
      var size := |text| - offset;
      if size > BUFFER - len {
        size := BUFFER - len;
      }
      Shift(len, size);
      Same(buf[..len + size], text[base + start..offset + size]);
      Rebase(len, size);
    }

    /** The places in the buffer after the shift (ngx_conf_file.c:524-529). */
    method Rebase(len: nat, size: nat)
      requires buf.Length == BUFFER && len == pos - start && start <= pos && base + pos == offset
      requires len + size <= BUFFER && offset + size <= |text|
        && Holds(buf[..len + size], text[base + start..offset + size])
      modifies this`pos, this`last, this`offset, this`base, this`start
      ensures Valid() && Abs() == old(Abs()) && last == pos + size
    {
      pos, last, base, start, offset := len, len + size, base + start, 0, offset + size;
    }

    /** What a step of the loop leads to: an end, or the next state. */
    ghost predicate Led(step: Step, done: bool, token: Token)
      reads this
    {
      if done then step == Done(token) else step == More(Abs())
    }

    /** ngx_conf_file.c:551-575 */
    method OnQuoteEnd(ch: char) returns (done: bool, token: Token, on: bool)
      requires needSpace && pos > 0
      modifies this`lastSpace, this`needSpace
      ensures on ==> !done && ch == ')' && Abs() == old(Abs()).(lastSpace := true, needSpace := false)
      ensures !on ==> Led(AfterQuote(old(Abs()), ch), done, token) && ch != ')'
    {
      token, on := FileDone, false;
      if IsSpace(ch) {
        lastSpace, needSpace := true, false;
        return false, token, false;
      }
      if ch == ';' {
        return true, Directive(words), false;
      }
      if ch == '{' {
        return true, BlockStart(words), false;
      }
      if ch == ')' {
        lastSpace, needSpace := true, false;
        return false, token, true;
      }
      return true, Unexpected(ch), false;
    }

    /** The next word, or whatever it is, starts here (ngx_conf_file.c:585-586). */
    method MarkStart()
      requires pos > 0
      modifies this`start, this`startLine
      ensures Abs() == Started(old(Abs())) && start == pos - 1
    {
      start, startLine := pos - 1, line;
    }

    /** What begins with a character that is no end (ngx_conf_file.c:612-632). */
    method BeginWord(ch: char)
      modifies this`start, this`comment, this`quoted, this`lastSpace, this`single, this`double
      ensures start <= old(start) + 1 && Abs() == Begun(old(Abs()), ch)
    {
      match ch {
        case '#' => comment := true;
        case '\\' => quoted, lastSpace := true, false;
        case '"' => start, double, lastSpace := start + 1, true, false;
        case '\'' => start, single, lastSpace := start + 1, true, false;
        case _ => lastSpace := false;
      }
    }

    /** ngx_conf_file.c:577-633 */
    method BetweenWords(ch: char) returns (done: bool, token: Token)
      requires pos > 0 && start < pos
      modifies this`start, this`startLine, this`comment, this`quoted, this`lastSpace, this`single, this`double
      ensures Led(Between(old(Abs()), ch), done, token) && start <= pos
    {
      done, token := false, FileDone;
      if IsSpace(ch) {
        return;
      }
      if Ends(ch) {
        MarkStart();
        token := EndToken(ch);
        return true, token;
      }
      MarkStart();
      BeginWord(ch);
    }

    /** ngx_conf_file.c:590-607 */
    method EndToken(ch: char) returns (token: Token)
      requires Ends(ch)
      ensures token == if (words == []) == (ch == '}') then
        (if ch == '}' then BlockDone else if ch == ';' then Directive(words) else BlockStart(words)) else Unexpected(ch)
    {
      if ch == '}' {
        return if |words| != 0 then Unexpected(ch) else BlockDone;
      }
      if |words| == 0 {
        return Unexpected(ch);
      }
      return if ch == '{' then BlockStart(words) else Directive(words);
    }

    lemma Raw()
      requires Valid() && start < pos
      ensures buf[start..pos] == text[base + start..base + pos]
    {
      Same(buf[..last], text[base..offset]);
      ghost var held := buf[..last];
      Slices(held, text, base, start, pos);
      forall i | 0 <= i < pos - start ensures buf[start..pos][i] == held[start..pos][i] {
        assert held[start + i] == buf[start + i];
      }
      assert buf[start..pos] == held[start..pos];
    }

    method TakeWord() returns (word: string)
      requires Valid() && start < pos
      ensures word == Unescape(text[base + start..base + pos], 0)
    {
      Raw();
      word := CopyWord(buf[start..pos]);
    }

    /** ngx_conf_file.c:636-650 */
    method InsideWord(ch: char) returns (done: bool, token: Token)
      requires Valid() && start < pos && !lastSpace && !needSpace
      modifies this`variable, this`quoted, this`double, this`single, this`needSpace, this`lastSpace, this`words
      ensures Led(InWord(old(Abs()), ch, text[base + start..base + pos]), done, token)
    {
      done, token := false, FileDone;
      if ch == '{' && variable {
        return;
      }
      variable := false;
      if ch == '\\' {
        quoted := true;
        return;
      }
      if ch == '$' {
        variable := true;
        return;
      }
      done, token := MaybeEnd(ch);
    }

    /** Whether a word ends with this character (ngx_conf_file.c:652-675). */
    method WordEnds(ch: char) returns (found: bool)
      requires !lastSpace && !needSpace
      modifies this`double, this`single, this`needSpace, this`lastSpace
      ensures var s := old(Abs());
        if s.double then (found <==> ch == '"') && Abs() == if found then s.(double := false, needSpace := true) else s
        else if s.single then (found <==> ch == '\'') && Abs() == if found then s.(single := false, needSpace := true)
          else s
        else (found <==> IsSpace(ch) || ch == ';' || ch == '{') && Abs() == if found then s.(lastSpace := true) else s
    {
      found := false;
      if double {
        if ch == '"' {
          double, needSpace, found := false, true, true;
        }
      } else if single {
        if ch == '\'' {
          single, needSpace, found := false, true, true;
        }
      } else if IsSpace(ch) || ch == ';' || ch == '{' {
        lastSpace, found := true, true;
      }
    }

    method AddWord()
      requires Valid() && start < pos
      modifies this`words
      ensures Abs() == old(Abs()).(words := old(words) + [Unescape(text[base + start..base + pos], 0)])
    {
      var word := TakeWord();
      words := words + [word];
    }

    /** ngx_conf_file.c:652-727 */
    method MaybeEnd(ch: char) returns (done: bool, token: Token)
      requires Valid() && start < pos && !lastSpace && !needSpace
      modifies this`double, this`single, this`needSpace, this`lastSpace, this`words
      ensures Led(EndWord(old(Abs()), ch, text[base + start..base + pos]), done, token)
    {
      done, token := false, FileDone;
      var found := WordEnds(ch);
      if found {
        AddWord();
        if ch == ';' {
          return true, Directive(words);
        }
        if ch == '{' {
          return true, BlockStart(words);
        }
      }
    }

    /** The character at the reading position. */
    method Peek() returns (ch: char)
      requires Valid() && pos < last
      ensures base + pos < |text| && ch == text[base + pos]
    {
      Same(buf[..last], text[base..offset]);
      ch := buf[pos];
      assert buf[..last][pos] == ch;
    }

    /** A character that is neither in a comment nor quoted (ngx_conf_file.c:551-727). */
    method Sort(ch: char) returns (done: bool, token: Token)
      requires Valid() && start < pos
      modifies this`start, this`startLine, this`comment, this`quoted, this`lastSpace, this`needSpace, this`single,
        this`double, this`variable, this`words
      ensures Valid()
      ensures Led(Sorted(old(Abs()), ch, text[base + old(start)..base + pos]), done, token)
    {
      if needSpace {
        var on;
        done, token, on := OnQuoteEnd(ch);
        if !on {
          return;
        }
      }
      if lastSpace {
        done, token := BetweenWords(ch);
      } else {
        done, token := InsideWord(ch);
      }
    }

    /** ngx_conf_file.c:532-540 */
    method Consume() returns (ch: char)
      requires Valid() && pos < last
      modifies this`pos, this`line, this`comment
      ensures Valid() && start < pos && pos == old(pos) + 1 && old(base + pos) < |text| && ch == text[old(base + pos)]
        && Abs() == Advance(old(Abs()), ch)
    {
      ch := Peek();
      pos := pos + 1;
      if ch == '\n' {
        line := line + 1;
        comment := false;
      }
    }

    /** One character (ngx_conf_file.c:532-727). */
    method Take() returns (done: bool, token: Token)
      requires Valid() && pos < last
      modifies this`pos, this`line, this`start, this`startLine, this`comment, this`quoted, this`lastSpace,
        this`needSpace, this`single, this`double, this`variable, this`words
      ensures Valid() && old(base + pos) < |text| && base + pos == old(base + pos) + 1
      ensures line == if text[old(base + pos)] == '\n' then old(line) + 1 else old(line)
      ensures Led(Feed(old(Abs()), text[old(base + pos)], text[old(base + start)..old(base + pos) + 1]), done, token)
    {
      done, token := false, FileDone;
      var ch := Consume();
      if comment {
        return;
      }
      if quoted {
        quoted := false;
        return;
      }
      done, token := Sort(ch);
    }

    /** The next character is there, or the text or the buffer has run out (ngx_conf_file.c:454-530). */
    method Provide() returns (done: bool, token: Token)
      requires Valid()
      modifies buf, this`pos, this`last, this`offset, this`base, this`start, this`line
      ensures Valid()
      ensures if done then Result(token, base + pos, line) == Scan(text, old(Abs()))
        else pos < last && Abs() == old(Abs())
    {
      done, token := false, FileDone;
      if pos >= last {
        if offset >= |text| {
          return true, if |words| > 0 || !lastSpace then UnexpectedEnd else FileDone;
        }
        if pos - start == BUFFER {
          line := startLine;
          return true, TooLong(if double then '"' else if single then '\'' else ' ');
        }
        Refill();
      }
    }

    /** One turn of the loop. */
    method Turn() returns (done: bool, token: Token)
      requires Valid()
      modifies this, buf
      ensures Valid()
      ensures done ==> Result(token, base + pos, line) == Scan(text, old(Abs()))
      ensures !done ==> base + pos > old(base + pos) && Scan(text, Abs()) == Scan(text, old(Abs()))
    {
      done, token := Provide();
      if !done {
        ghost var s := Abs();
        done, token := Take();
        ScanStep(text, s);
      }
    }

    method ClearFlags()
      modifies this`comment, this`quoted, this`lastSpace, this`needSpace, this`single, this`double, this`variable
      ensures !needSpace && lastSpace && !comment && !variable && !quoted && !single && !double
    {
      needSpace, lastSpace, comment, variable, quoted, single, double := false, true, false, false, false, false, false;
    }

    /** ngx_conf_file.c:438-450 */
    method Reset()
      requires Valid()
      modifies this`words, this`start, this`startLine, this`comment, this`quoted, this`lastSpace, this`needSpace,
        this`single, this`double, this`variable
      ensures Valid() && Abs() == Begin(base + pos, line)
    {
      ClearFlags();
      words, start, startLine := [], pos, line;
    }

    /**
     * ngx_conf_read_token (ngx_conf_file.c:426-729) through the sliding buffer gives what reading the whole text gives,
     * wherever the buffer happens to end.
     */
    method ReadToken() returns (token: Token)
      requires Valid()
      modifies this, buf
      ensures Valid() && Result(token, base + pos, line) == Scan(text, Begin(old(base + pos), old(line)))
    {
      Reset();
      ghost var r := Scan(text, Abs());
      var done := false;
      token := FileDone;
      while !done
        invariant Valid() && if done then Result(token, base + pos, line) == r else Scan(text, Abs()) == r
        decreases !done, |text| - (base + pos)
      {
        done, token := Turn();
      }
    }
  }
}
