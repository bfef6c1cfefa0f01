/** Token recognition of the POSIX shell, and the quoting of internal/actions/shell.go.

    The lexer is the specification: POSIX.1-2017, Shell Command Language, sections 2.2
    (Quoting), 2.3 (Token Recognition) and, for numbers before a redirection, 2.10.1. */
module Shell {
  import opened Options
  import opened Sequences

  // ---- Tokens and lexer state ----

  /** `quoted` records whether any part of the word was quoted: a quoted `if` is not a
      reserved word and a quoted number does not name a file descriptor. */
  datatype Token =
    | Word(text: string, quoted: bool)
    | IoNumber(text: string)
    | Operator(text: string)
    | NewLine

  /** `Refused` stands for text this lexer gives no meaning to: a NUL character, which an
      argument cannot carry and a shell's input should not, or an expansion that a dollar sign
      or a backquote starts outside single quotes. */
  datatype Mode = Plain | Escaped | SingleQuoted | DoubleQuoted | DoubleEscaped | Comment | Refused

  datatype Pending = NoToken | InWord(text: string, quoted: bool) | InOperator(text: string)

  datatype Lexer = Lexer(mode: Mode, pending: Pending, tokens: seq<Token>)

  const START := Lexer(Plain, NoToken, [])

  // ---- Character classes ----

  predicate IsBlank(c: char) { c == ' ' || c == '\t' }

  predicate StartsOperator(c: char) {
    c == '&' || c == '|' || c == ';' || c == '<' || c == '>' || c == '(' || c == ')'
  }

  predicate IsOperator(s: string) {
    s in ["&", "|", ";", "<", ">", "(", ")", "&&", "||", ";;", "<<", ">>", "<&", ">&", "<>", ">|", "<<-"]
  }

  predicate StartsExpansion(c: char) { c == '$' || c == '`' }

  /** The characters of the bare words in the service's scripts: outside quotes each joins
      the word in progress. What later expansions make of a word such as [:blank:] is not the
      lexer's business. */
  predicate IsOrdinary(c: char) {
    'a' <= c <= 'z' || 'A' <= c <= 'Z' || '-' <= c <= ':' || c == '_' || c == '[' || c == ']'
  }

  predicate AllOrdinary(s: string) {
    forall i | 0 <= i < |s| :: IsOrdinary(s[i])
  }

  predicate AllDigits(s: string) {
    forall i | 0 <= i < |s| :: '0' <= s[i] <= '9'
  }

  predicate NulFree(s: string) {
    forall i | 0 <= i < |s| :: s[i] != '\0'
  }

  // ---- One character at a time ----

  /** The token in progress ends; `next` is the character that ends it. */
  function Delimited(p: Pending, next: char): seq<Token> {
    match p
    case NoToken => []
    case InOperator(op) => [Operator(op)]
    case InWord(w, q) =>
      if !q && w != "" && AllDigits(w) && (next == '<' || next == '>') then [IoNumber(w)] else [Word(w, q)]
  }

  function Delimit(s: Lexer, next: char): Lexer {
    s.(pending := NoToken, tokens := s.tokens + Delimited(s.pending, next))
  }

  /** Adds text to the word in progress, starting one if need be. */
  function Extend(s: Lexer, text: string, quoted: bool): Lexer {
    match s.pending
    case InWord(w, q) => s.(pending := InWord(w + text, q || quoted))
    case NoToken => s.(pending := InWord(text, quoted))
    case InOperator(op) => s.(pending := InWord(text, quoted), tokens := s.tokens + [Operator(op)])
  }

  function StepPlain(s: Lexer, c: char): Lexer {
    if s.pending.InOperator? && IsOperator(s.pending.text + [c]) then
      s.(pending := InOperator(s.pending.text + [c]))
    else if c == '\\' then s.(mode := Escaped)
    else if c == '\'' then Extend(s, "", true).(mode := SingleQuoted)
    else if c == '"' then Extend(s, "", true).(mode := DoubleQuoted)
    else if StartsExpansion(c) then s.(mode := Refused)
    else if StartsOperator(c) then Delimit(s, c).(pending := InOperator([c]))
    else if c == '\n' then var d := Delimit(s, c); d.(tokens := d.tokens + [NewLine])
    else if IsBlank(c) then Delimit(s, c)
    else if c == '#' && !s.pending.InWord? then Delimit(s, c).(mode := Comment)
    else Extend(s, [c], false)
  }

  function Step(s: Lexer, c: char): Lexer {
    if s.mode == Refused || c == '\0' then s.(mode := Refused)
    else match s.mode
      case Plain => StepPlain(s, c)
      case Escaped => if c == '\n' then s.(mode := Plain) else Extend(s, [c], true).(mode := Plain)
      case SingleQuoted => if c == '\'' then s.(mode := Plain) else Extend(s, [c], true)
      case DoubleQuoted =>
        if c == '"' then s.(mode := Plain)
        else if c == '\\' then s.(mode := DoubleEscaped)
        else if StartsExpansion(c) then s.(mode := Refused)
        else Extend(s, [c], true)
      case DoubleEscaped =>
        if c == '\n' then s.(mode := DoubleQuoted)
        else if StartsExpansion(c) || c == '"' || c == '\\' then Extend(s, [c], true).(mode := DoubleQuoted)
        else Extend(s, ['\\', c], true).(mode := DoubleQuoted)
      case Comment => if c == '\n' then s.(mode := Plain, tokens := s.tokens + [NewLine]) else s
      case Refused => s
  }

  function Run(s: Lexer, text: string): Lexer
    decreases |text|, s
  {
    if text == "" then s else Run(Step(s, text[0]), text[1..])
  }

  /** The tokens of a finished text; an open quote or a trailing backslash has none. */
  function Finish(s: Lexer): Option<seq<Token>> {
    if s.mode == Plain || s.mode == Comment then Some(Delimit(s, '\n').tokens) else None
  }

  function Tokens(text: string): Option<seq<Token>> {
    Finish(Run(START, text))
  }

  // ---- shellQuote ----

  function EscapeQuotes(s: string): string {
    if s == "" then "" else (if s[0] == '\'' then "'\\''" else [s[0]]) + EscapeQuotes(s[1..])
  }

  function ShellQuote(s: string): string {
    "'" + EscapeQuotes(s) + "'"
  }

  // ---- Running over text ----

  lemma {:induction false} RunConcat(s: Lexer, a: string, b: string)
    ensures Run(s, a + b) == Run(Run(s, a), b)
    decreases |a|
  {
    if a == "" {
      assert a + b == b;
    } else {
      assert (a + b)[1..] == a[1..] + b;
      RunConcat(Step(s, a[0]), a[1..], b);
    }
  }

  lemma RunChar(s: Lexer, c: char)
    ensures Run(s, [c]) == Step(s, c)
  {
    assert [c][1..] == "";
    assert Run(Step(s, c), "") == Step(s, c);
  }

  lemma {:induction false} RefusedStays(s: Lexer, text: string)
    requires s.mode == Refused
    ensures Run(s, text) == s
    decreases |text|
  {
    if text != "" {
      RefusedStays(s, text[1..]);
    }
  }

  lemma {:induction false} NulRefused(s: Lexer, text: string)
    requires !NulFree(text)
    ensures Run(s, text).mode == Refused
    decreases |text|
  {
    if text[0] == '\0' {
      RefusedStays(Step(s, text[0]), text[1..]);
    } else {
      assert !NulFree(text[1..]) by {
        var i :| 0 <= i < |text| && text[i] == '\0';
        assert text[1..][i - 1] == '\0';
      }
      NulRefused(Step(s, text[0]), text[1..]);
    }
  }

  lemma ExtendTwice(s: Lexer, a: string, b: string, quoted: bool)
    ensures Extend(Extend(s, a, quoted), b, quoted) == Extend(s, a + b, quoted)
  {
    match s.pending
    case InWord(w, q) => assert (w + a) + b == w + (a + b);
    case NoToken =>
    case InOperator(op) =>
  }

  lemma NoOperatorEndsIn(op: string, c: char)
    requires !StartsOperator(c) && c != '-'
    ensures !IsOperator(op + [c])
  {
    assert (op + [c])[|op + [c]| - 1] == c;
  }

  /** Unquoted ordinary characters join the word in progress. */
  lemma {:induction false} RunOrdinary(s: Lexer, w: string)
    requires s.mode == Plain && !s.pending.InOperator?
    requires w != "" && AllOrdinary(w)
    ensures Run(s, w) == Extend(s, w, false)
    decreases |w|
  {
    var t := Step(s, w[0]);
    assert IsOrdinary(w[0]);
    assert t == Extend(s, [w[0]], false);
    if |w| > 1 {
      RunOrdinary(t, w[1..]);
      ExtendTwice(s, [w[0]], w[1..], false);
      assert w == [w[0]] + w[1..];
    } else {
      assert w == [w[0]] && w[1..] == "";
    }
  }

  // ---- Quoting ----

  lemma EscapeQuotesStep(t: string)
    requires t != ""
    ensures EscapeQuotes(t) == (if t[0] == '\'' then "'\\''" else [t[0]]) + EscapeQuotes(t[1..])
  {
  }

  lemma ReopenQuotes(s: Lexer)
    requires s.mode == SingleQuoted && s.pending.InWord? && s.pending.quoted
    ensures Run(s, "'\\''") == Extend(s, "'", true)
  {
    var plain := s.(mode := Plain);
    var added := Extend(s, "'", true).(mode := Plain);
    assert "'\\''" == (("'" + "\\") + "'") + "'";
    RunConcat(s, ("'" + "\\") + "'", "'");
    RunConcat(s, "'" + "\\", "'");
    RunConcat(s, "'", "\\");
    RunChar(s, '\'');
    RunChar(plain, '\\');
    RunChar(plain.(mode := Escaped), '\'');
    RunChar(added, '\'');
    assert Step(added, '\'') == Extend(s, "'", true) by {
      assert (s.pending.text + "'") + "" == s.pending.text + "'";
    }
  }

  lemma {:induction false} RunEscaped(s: Lexer, t: string)
    requires s.mode == SingleQuoted && s.pending.InWord? && s.pending.quoted
    requires NulFree(t)
    ensures Run(s, EscapeQuotes(t)) == Extend(s, t, true)
    decreases |t|
  {
    if t == "" {
      assert s.pending.text + "" == s.pending.text;
    } else {
      var head := if t[0] == '\'' then "'\\''" else [t[0]];
      EscapeQuotesStep(t);
      RunConcat(s, head, EscapeQuotes(t[1..]));
      if t[0] == '\'' {
        ReopenQuotes(s);
      } else {
        assert [t[0]][1..] == "";
        assert t[0] != '\0';
      }
      RunEscaped(Extend(s, [t[0]], true), t[1..]);
      ExtendTwice(s, [t[0]], t[1..], true);
      assert t == [t[0]] + t[1..];
    }
  }

  /** From any unquoted position the quoted text adds exactly `t` to the word in progress
      and ends at an unquoted position again. */
  lemma RunQuoted(s: Lexer, t: string)
    requires s.mode == Plain && NulFree(t)
    ensures Run(s, ShellQuote(t)) == Extend(s, t, true)
  {
    var inside := Extend(s, "", true).(mode := SingleQuoted);
    var filled := Extend(inside, t, true);
    RunConcat(s, "'" + EscapeQuotes(t), "'");
    RunConcat(s, "'", EscapeQuotes(t));
    assert "'"[1..] == "";
    if s.pending.InOperator? {
      NoOperatorEndsIn(s.pending.text, '\'');
    }
    assert Step(s, '\'') == inside;
    RunEscaped(inside, t);
    assert Run(filled, "'") == filled.(mode := Plain);
    assert "" + t == t;
    ExtendTwice(s, "", t, true);
  }

  /** Quoting in any context: between any text ending unquoted and any text at all. */
  lemma QuoteInContext(u: string, t: string, v: string)
    requires Run(START, u).mode == Plain && NulFree(t)
    ensures Run(START, u + ShellQuote(t)) == Extend(Run(START, u), t, true)
    ensures Run(START, u + ShellQuote(t) + v) == Run(Extend(Run(START, u), t, true), v)
  {
    RunConcat(START, u + ShellQuote(t), v);
    RunConcat(START, u, ShellQuote(t));
    RunQuoted(Run(START, u), t);
  }

  lemma NulFreeConcat(a: string, b: string)
    ensures NulFree(a + b) <==> NulFree(a) && NulFree(b)
  {
    if NulFree(a + b) {
      assert forall i | 0 <= i < |a| :: a[i] == (a + b)[i];
      assert forall i | 0 <= i < |b| :: b[i] == (a + b)[|a| + i];
    }
  }

  lemma {:induction false} NothingToEscape(s: string)
    requires '\'' !in s
    ensures EscapeQuotes(s) == s
  {
    if s != "" {
      NothingToEscape(s[1..]);
      assert s == [s[0]] + s[1..];
    }
  }

  lemma {:induction false} EscapeKeepsNul(t: string)
    requires !NulFree(t)
    ensures !NulFree(EscapeQuotes(t))
  {
    var i :| 0 <= i < |t| && t[i] == '\0';
    if i == 0 {
      assert EscapeQuotes(t)[0] == '\0';
    } else {
      assert t[1..][i - 1] == '\0';
      EscapeKeepsNul(t[1..]);
      var rest := EscapeQuotes(t[1..]);
      var j :| 0 <= j < |rest| && rest[j] == '\0';
      assert EscapeQuotes(t)[|EscapeQuotes(t)| - |rest| + j] == '\0';
    }
  }

  lemma QuoteKeepsNul(t: string)
    requires !NulFree(t)
    ensures !NulFree(ShellQuote(t))
  {
    EscapeKeepsNul(t);
    var e := EscapeQuotes(t);
    var j :| 0 <= j < |e| && e[j] == '\0';
    assert ShellQuote(t)[j + 1] == '\0';
  }

  /** On its own a quoted text is one word with the text as its content, exactly when
      the text holds no NUL; with a NUL no token list results at all. */
  lemma QuotedIsOneWord(t: string)
    ensures Tokens(ShellQuote(t)) == if NulFree(t) then Some([Word(t, true)]) else None
  {
    if NulFree(t) {
      RunQuoted(START, t);
      assert [] + [Word(t, true)] == [Word(t, true)];
    } else {
      QuoteKeepsNul(t);
      NulRefused(START, ShellQuote(t));
    }
  }

  lemma {:induction false} EscapeQuotesInjective(s: string, t: string)
    requires EscapeQuotes(s) == EscapeQuotes(t)
    ensures s == t
  {
    if s != "" && t != "" {
      assert s[0] == t[0] by {
        assert EscapeQuotes(s)[0] == EscapeQuotes(t)[0];
      }
      var n := if s[0] == '\'' then 4 else 1;
      assert EscapeQuotes(s)[n..] == EscapeQuotes(s[1..]);
      assert EscapeQuotes(t)[n..] == EscapeQuotes(t[1..]);
      EscapeQuotesInjective(s[1..], t[1..]);
      assert s == [s[0]] + s[1..] && t == [t[0]] + t[1..];
    }
  }

  /** Different texts never quote to the same script text. */
  lemma ShellQuoteInjective(s: string, t: string)
    requires ShellQuote(s) == ShellQuote(t)
    ensures s == t
  {
    var e, f := EscapeQuotes(s), EscapeQuotes(t);
    assert e == ShellQuote(s)[1..|ShellQuote(s)| - 1];
    assert f == ShellQuote(t)[1..|ShellQuote(t)| - 1];
    EscapeQuotesInjective(s, t);
  }

  // ---- Fixed text ----

  /** Fixed script text in pieces, each followed by a blank: a bare word, a word that an
      operator ends, or an operator. */
  datatype Piece = Bare(text: string) | Ended(text: string, op: string) | Op(op: string)

  predicate ScriptOperator(op: string) {
    op == ";" || op == "|" || op == ">" || op == "&&"
  }

  predicate WellFormed(p: Piece) {
    && (!p.Op? ==> p.text != "" && AllOrdinary(p.text))
    && (!p.Bare? ==> ScriptOperator(p.op))
  }

  function PieceText(p: Piece): string {
    match p
    case Bare(text) => text + " "
    case Ended(text, op) => text + (op + " ")
    case Op(op) => op + " "
  }

  function PieceTokens(p: Piece): seq<Token> {
    match p
    case Bare(text) => [Word(text, false)]
    case Ended(text, op) =>
      [if AllDigits(text) && op == ">" then IoNumber(text) else Word(text, false), Operator(op)]
    case Op(op) => [Operator(op)]
  }

  datatype Phrase = End | Then(first: Piece, rest: Phrase)

  predicate AllWellFormed(ph: Phrase) {
    match ph
    case End => true
    case Then(p, rest) => WellFormed(p) && AllWellFormed(rest)
  }

  function PhraseText(ph: Phrase): string {
    match ph
    case End => ""
    case Then(p, rest) => PieceText(p) + PhraseText(rest)
  }

  function PhraseTokens(ph: Phrase): seq<Token> {
    match ph
    case End => []
    case Then(p, rest) => PieceTokens(p) + PhraseTokens(rest)
  }

  lemma RunBlank(s: Lexer)
    requires s.mode == Plain
    ensures Run(s, " ") == Delimit(s, ' ')
  {
    assert " "[1..] == "";
    if s.pending.InOperator? {
      NoOperatorEndsIn(s.pending.text, ' ');
    }
  }

  /** The characters of an operator, read after a word or a blank. */
  lemma RunOperatorText(s: Lexer, op: string)
    requires s.mode == Plain && !s.pending.InOperator? && ScriptOperator(op)
    ensures Run(s, op) == Delimit(s, op[0]).(pending := InOperator(op))
  {
    hide Run, Delimited;
    RunChar(s, op[0]);
    if op == "&&" {
      RunConcat(s, "&", "&");
      RunChar(Delimit(s, '&').(pending := InOperator("&")), '&');
      assert op == "&" + "&";
    } else {
      assert op == [op[0]];
    }
  }

  /** An operator ends the word before it and is itself ended by the blank after it. */
  lemma RunOperator(s: Lexer, op: string)
    requires s.mode == Plain && !s.pending.InOperator? && ScriptOperator(op)
    ensures Run(s, op + " ")
         == s.(pending := NoToken, tokens := s.tokens + Delimited(s.pending, op[0]) + [Operator(op)])
  {
    hide Run, ScriptOperator;
    assert op != "" by {
      OperatorsNotEmpty(op);
    }
    RunConcat(s, op, " ");
    RunOperatorText(s, op);
    RunBlank(Delimit(s, op[0]).(pending := InOperator(op)));
  }

  lemma OperatorsNotEmpty(op: string)
    requires ScriptOperator(op)
    ensures op != ""
  {
  }

  lemma RunPiece(s: Lexer, p: Piece)
    requires s.mode == Plain && s.pending == NoToken && WellFormed(p)
    ensures Run(s, PieceText(p)) == s.(tokens := s.tokens + PieceTokens(p))
  {
    hide Run;
    match p
    case Bare(text) =>
      RunConcat(s, text, " ");
      RunOrdinary(s, text);
      RunBlank(Extend(s, text, false));
    case Ended(text, op) =>
      RunConcat(s, text, op + " ");
      RunOrdinary(s, text);
      RunOperator(Extend(s, text, false), op);
    case Op(op) =>
      RunOperator(s, op);
  }

  lemma {:induction false} RunPhrase(s: Lexer, ph: Phrase)
    requires s.mode == Plain && s.pending == NoToken && AllWellFormed(ph)
    ensures Run(s, PhraseText(ph)) == s.(tokens := s.tokens + PhraseTokens(ph))
    decreases ph
  {
    match ph
    case End =>
      assert s.tokens + [] == s.tokens;
    case Then(p, rest) =>
      RunConcat(s, PieceText(p), PhraseText(rest));
      RunPiece(s, p);
      RunPhrase(s.(tokens := s.tokens + PieceTokens(p)), rest);
      Reassociate(s.tokens, PieceTokens(p), PhraseTokens(rest));
  }

  lemma RunSpacedPhrase(s: Lexer, ph: Phrase)
    requires s.mode == Plain && AllWellFormed(ph)
    ensures Run(s, " " + PhraseText(ph)) == Lexer(Plain, NoToken, Delimit(s, ' ').tokens + PhraseTokens(ph))
  {
    RunConcat(s, " ", PhraseText(ph));
    RunBlank(s);
    RunPhrase(Delimit(s, ' '), ph);
  }
}
