/** The shell scripts the actions build (internal/actions/maildir.go and system.go), and
    the tokens a shell sees in them. */
module Scripts {
  import opened Options
  import opened Shell
  import opened Text

  // ---- Names ----

  /** sanitizeName: keeps word characters. `letterOrNumber` is the Unicode class of
      letters and numbers. */
  function SanitizeName(s: string, letterOrNumber: char -> bool): (r: string)
    ensures forall c | c in r :: c in s && (letterOrNumber(c) || c == '_')
  {
    if s == "" then ""
    else (if letterOrNumber(s[0]) || s[0] == '_' then [s[0]] else "") + SanitizeName(s[1..], letterOrNumber)
  }

  /** Wherever a character stands, it is kept if it is a word character and dropped if not. */
  lemma {:induction false} SanitizeFilters(a: string, c: char, b: string, letterOrNumber: char -> bool)
    ensures SanitizeName(a + ([c] + b), letterOrNumber)
         == SanitizeName(a, letterOrNumber)
            + ((if letterOrNumber(c) || c == '_' then [c] else "") + SanitizeName(b, letterOrNumber))
  {
    var s := a + ([c] + b);
    if a == "" {
      assert s == [c] + b && s[1..] == b;
    } else {
      assert s[0] == a[0] && s[1..] == a[1..] + ([c] + b);
      SanitizeFilters(a[1..], c, b, letterOrNumber);
    }
  }

  function IndexName(maildir: string): Option<string> {
    var parts := Split(maildir, '/');
    if |parts| < 2 then None else Some(parts[1] + "@" + parts[0])
  }

  /** A domain and a user become user@domain, whatever follows a further slash; a name
      without a slash has no index directory. */
  lemma IndexNameMeaning(domain: string, user: string, rest: string)
    requires '/' !in domain && '/' !in user
    ensures IndexName(domain + ['/'] + user) == Some(user + "@" + domain)
    ensures IndexName(domain + ['/'] + (user + ['/'] + rest)) == Some(user + "@" + domain)
    ensures IndexName(domain) == None
  {
    SplitAt(domain, '/', user);
    SplitFree(user, '/');
    SplitAt(user, '/', rest);
    SplitAt(domain, '/', user + ['/'] + rest);
    SplitFree(domain, '/');
  }

  function Digit(n: nat): char
    requires n < 10
  {
    "0123456789"[n]
  }

  function FormatNat(n: nat): string {
    if n < 10 then [Digit(n)] else FormatNat(n / 10) + [Digit(n % 10)]
  }

  function FormatInt(n: int): string {
    if n < 0 then "-" + FormatNat(-n) else FormatNat(n)
  }

  lemma {:induction false} FormatNatIsDigits(n: nat)
    ensures forall c | c in FormatNat(n) :: '0' <= c <= '9'
  {
    if n >= 10 {
      FormatNatIsDigits(n / 10);
    }
  }

  /** The number that a text of decimal digits denotes. */
  function ReadNat(s: string): nat
    requires AllDigits(s)
  {
    if s == "" then 0 else ReadNat(s[..|s| - 1]) * 10 + (s[|s| - 1] as nat - '0' as nat)
  }

  lemma ReadNatSnoc(s: string, c: char)
    requires AllDigits(s) && '0' <= c <= '9'
    ensures AllDigits(s + [c]) && ReadNat(s + [c]) == ReadNat(s) * 10 + (c as nat - '0' as nat)
  {
    assert (s + [c])[..|s|] == s;
  }

  lemma DigitReads(n: nat)
    requires n < 10
    ensures '0' <= Digit(n) <= '9' && Digit(n) as nat - '0' as nat == n && (Digit(n) == '0' <==> n == 0)
  {
  }

  lemma {:induction false} FormatNatReads(n: nat)
    ensures AllDigits(FormatNat(n)) && ReadNat(FormatNat(n)) == n
    ensures FormatNat(n) != "" && (n > 0 ==> FormatNat(n)[0] != '0')
  {
    hide Digit, ReadNat, AllDigits;
    DigitReads(n % 10);
    if n < 10 {
      NoDigits();
      ReadNatSnoc("", Digit(n));
      assert "" + [Digit(n)] == [Digit(n)];
    } else {
      FormatNatReads(n / 10);
      ReadNatSnoc(FormatNat(n / 10), Digit(n % 10));
    }
  }

  lemma NoDigits()
    ensures AllDigits("") && ReadNat("") == 0
  {
  }

  /** The timestamp reads back as the number it was made of, with a sign if it is
      negative. */
  lemma FormatIntReads(n: int)
    ensures var t := FormatInt(n);
            if n < 0 then t != "" && t[0] == '-' && AllDigits(t[1..]) && ReadNat(t[1..]) == -n
            else AllDigits(t) && ReadNat(t) == n
  {
    hide AllDigits, ReadNat, FormatNat;
    FormatNatReads(if n < 0 then -n else n);
    if n < 0 {
      assert FormatInt(n)[1..] == FormatNat(-n);
    }
  }

  function GarbagePath(maildir: string, now: int, letterOrNumber: char -> bool): string {
    "/var/vmail/_garbage/" + FormatInt(now) + "_" + SanitizeName(maildir, letterOrNumber)
  }

  /** What is moved away stays one level below the garbage directory, whatever the name. */
  lemma GarbageIsOneComponent(maildir: string, now: int, letterOrNumber: char -> bool)
    requires !letterOrNumber('/')
    ensures "/var/vmail/_garbage/" <= GarbagePath(maildir, now, letterOrNumber)
    ensures '/' !in GarbagePath(maildir, now, letterOrNumber)[20..]
  {
    FormatNatIsDigits(if now < 0 then -now else now);
    var tail := FormatInt(now) + "_" + SanitizeName(maildir, letterOrNumber);
    assert GarbagePath(maildir, now, letterOrNumber) == "/var/vmail/_garbage/" + tail;
    assert GarbagePath(maildir, now, letterOrNumber)[20..] == tail;
  }

  lemma NulFreeIndex(maildir: string)
    requires NulFree(maildir) && IndexName(maildir).Some?
    ensures NulFree(IndexName(maildir).value)
  {
    var parts := Split(maildir, '/');
    SplitKeeps(maildir, '/', '\0');
    assert '\0' !in parts[0] && '\0' !in parts[1];
  }

  lemma {:induction false} SplitKeeps(s: string, sep: char, c: char)
    requires c !in s
    ensures forall p | p in Split(s, sep) :: c !in p
  {
    if s != "" {
      SplitKeeps(s[1..], sep, c);
    }
  }

  // ---- Moving a directory ----

  function MoveIfDirectory(src: string, dst: string): string {
    "if [[ -d " + ShellQuote(src) + " ]]; then /bin/mv " + ShellQuote(src) + " " + ShellQuote(dst) + "; fi"
  }

  /** The command a shell reads: both paths arrive whole, as one quoted word each. */
  function MoveTokens(src: string, dst: string): seq<Token> {
    [ Word("if", false), Word("[[", false), Word("-d", false), Word(src, true), Word("]]", false),
      Operator(";"), Word("then", false), Word("/bin/mv", false), Word(src, true), Word(dst, true),
      Operator(";"), Word("fi", false)
    ]
  }

  lemma TestText()
    ensures PhraseText(Then(Bare("if"), Then(Bare("[["), Then(Bare("-d"), End)))) == "if [[ -d "
  {
    assert PieceText(Bare("if")) == "if ";
    assert PieceText(Bare("[[")) == "[[ ";
    assert PieceText(Bare("-d")) == "-d ";
    assert "if " + ("[[ " + ("-d " + "")) == "if [[ -d ";
  }

  lemma RunTest(s: Lexer)
    requires s.mode == Plain && s.pending == NoToken
    ensures Run(s, "if [[ -d ")
         == s.(tokens := s.tokens + [Word("if", false), Word("[[", false), Word("-d", false)])
  {
    var ph := Then(Bare("if"), Then(Bare("[["), Then(Bare("-d"), End)));
    assert PhraseTokens(ph) == [Word("if", false), Word("[[", false), Word("-d", false)];
    TestText();
    RunPhrase(s, ph);
  }

  lemma ThenText()
    ensures " " + PhraseText(Then(Ended("]]", ";"), Then(Bare("then"), Then(Bare("/bin/mv"), End))))
         == " ]]; then /bin/mv "
  {
    var c := Then(Bare("/bin/mv"), End);
    var b := Then(Bare("then"), c);
    assert PhraseText(c) == "/bin/mv " + "" == "/bin/mv ";
    assert PhraseText(b) == "then " + "/bin/mv " == "then /bin/mv ";
    assert PhraseText(Then(Ended("]]", ";"), b)) == ("]]" + (";" + " ")) + "then /bin/mv ";
  }

  lemma RunThen(s: Lexer)
    requires s.mode == Plain
    ensures Run(s, " ]]; then /bin/mv ")
         == Lexer(Plain, NoToken, Delimit(s, ' ').tokens
                  + [Word("]]", false), Operator(";"), Word("then", false), Word("/bin/mv", false)])
  {
    var ph := Then(Ended("]]", ";"), Then(Bare("then"), Then(Bare("/bin/mv"), End)));
    assert PhraseTokens(ph) == [Word("]]", false), Operator(";"), Word("then", false), Word("/bin/mv", false)];
    ThenText();
    RunSpacedPhrase(s, ph);
  }

  lemma RunFi(s: Lexer)
    requires s.mode == Plain && !s.pending.InOperator?
    ensures Run(s, "; fi") == Lexer(Plain, InWord("fi", false), Delimit(s, ';').tokens + [Operator(";")])
  {
    assert "; fi" == (";" + " ") + "fi";
    RunConcat(s, ";" + " ", "fi");
    RunOperator(s, ";");
    RunOrdinary(Run(s, ";" + " "), "fi");
  }

  /** A fresh command: the shell reads exactly the intended words, the last still open. */
  lemma RunMove(s: Lexer, src: string, dst: string)
    requires s.mode == Plain && s.pending == NoToken && NulFree(src) && NulFree(dst)
    ensures Run(s, MoveIfDirectory(src, dst))
         == Lexer(Plain, InWord("fi", false), s.tokens + MoveTokens(src, dst)[..11])
  {
    var test, then', fi := "if [[ -d ", " ]]; then /bin/mv ", "; fi";
    var a := test + ShellQuote(src);
    var b := a + then' + ShellQuote(src);
    var c := b + " " + ShellQuote(dst);
    RunConcat(s, c, fi);
    RunConcat(s, b + " ", ShellQuote(dst));
    RunConcat(s, b, " ");
    RunConcat(s, a + then', ShellQuote(src));
    RunConcat(s, a, then');
    RunConcat(s, test, ShellQuote(src));
    RunTest(s);
    var s1 := Run(s, test);
    RunQuoted(s1, src);
    var s2 := Extend(s1, src, true);
    RunThen(s2);
    var s3 := Run(s2, then');
    RunQuoted(s3, src);
    RunBlank(Extend(s3, src, true));
    var s5 := Delimit(Extend(s3, src, true), ' ');
    RunQuoted(s5, dst);
    RunFi(Extend(s5, dst, true));
    MoveTokensAssembled(s.tokens, src, dst);
  }

  lemma MoveTokensAssembled(before: seq<Token>, src: string, dst: string)
    ensures before + [Word("if", false), Word("[[", false), Word("-d", false)] + [Word(src, true)]
              + [Word("]]", false), Operator(";"), Word("then", false), Word("/bin/mv", false)]
              + [Word(src, true)] + [Word(dst, true)] + [Operator(";")]
         == before + MoveTokens(src, dst)[..11]
  {
  }

  // ---- MaildirCleanup and MaildirMove ----

  /** One command, or two joined by &&. */
  function JoinedMoves(first: (string, string), second: Option<(string, string)>): seq<Token> {
    match second
    case None => MoveTokens(first.0, first.1)
    case Some(m) => MoveTokens(first.0, first.1) + [Operator("&&")] + MoveTokens(m.0, m.1)
  }

  lemma FinishMove(s: Lexer, src: string, dst: string)
    requires s == Lexer(Plain, InWord("fi", false), s.tokens)
    ensures Finish(s) == Some(s.tokens + [Word("fi", false)])
    ensures Run(s, " && ") == Lexer(Plain, NoToken, s.tokens + [Word("fi", false), Operator("&&")])
  {
    assert " && " == " " + ("&&" + " ");
    RunConcat(s, " ", "&&" + " ");
    RunBlank(s);
    RunOperator(Delimit(s, ' '), "&&");
  }

  lemma MoveTokensClosed(before: seq<Token>, src: string, dst: string)
    ensures (before + MoveTokens(src, dst)[..11]) + [Word("fi", false)] == before + MoveTokens(src, dst)
    ensures (before + MoveTokens(src, dst)[..11]) + [Word("fi", false), Operator("&&")]
         == before + MoveTokens(src, dst) + [Operator("&&")]
  {
    assert MoveTokens(src, dst) == MoveTokens(src, dst)[..11] + [Word("fi", false)];
  }

  lemma TokensOfMove(src: string, dst: string)
    requires NulFree(src) && NulFree(dst)
    ensures Tokens(MoveIfDirectory(src, dst)) == Some(MoveTokens(src, dst))
  {
    RunMove(START, src, dst);
    FinishMove(Run(START, MoveIfDirectory(src, dst)), src, dst);
    MoveTokensClosed([], src, dst);
    assert [] + MoveTokens(src, dst) == MoveTokens(src, dst);
  }

  lemma TokensOfTwoMoves(a: (string, string), b: (string, string))
    requires NulFree(a.0) && NulFree(a.1) && NulFree(b.0) && NulFree(b.1)
    ensures Tokens(MoveIfDirectory(a.0, a.1) + (" && " + MoveIfDirectory(b.0, b.1))) == Some(JoinedMoves(a, Some(b)))
  {
    var m1, m2 := MoveIfDirectory(a.0, a.1), MoveIfDirectory(b.0, b.1);
    RunConcat(START, m1, " && " + m2);
    var s1 := Run(START, m1);
    RunConcat(s1, " && ", m2);
    RunMove(START, a.0, a.1);
    FinishMove(s1, a.0, a.1);
    MoveTokensClosed([], a.0, a.1);
    assert [] + MoveTokens(a.0, a.1) == MoveTokens(a.0, a.1);
    var s2 := Run(s1, " && ");
    RunMove(s2, b.0, b.1);
    FinishMove(Run(s2, m2), b.0, b.1);
    MoveTokensClosed(s2.tokens, b.0, b.1);
  }

  function CleanupMove(maildir: string, now: int, letterOrNumber: char -> bool): (string, string) {
    ("/var/vmail/" + maildir, GarbagePath(maildir, now, letterOrNumber))
  }

  function CleanupIndexMove(maildir: string, now: int, letterOrNumber: char -> bool): Option<(string, string)> {
    match IndexName(maildir)
    case None => None
    case Some(idx) => Some(("/var/vmail_index/" + idx, GarbagePath(maildir, now, letterOrNumber) + "_index"))
  }

  /** What is moved where, spelled out: from the mailbox to the garbage, and likewise its
      index. */
  lemma CleanupSpelled(domain: string, user: string, now: int, letterOrNumber: char -> bool)
    requires '/' !in domain && '/' !in user
    ensures var maildir := domain + ['/'] + user;
            var garbage := "/var/vmail/_garbage/" + (FormatInt(now) + ("_" + SanitizeName(maildir, letterOrNumber)));
            && CleanupMove(maildir, now, letterOrNumber) == ("/var/vmail/" + maildir, garbage)
            && CleanupIndexMove(maildir, now, letterOrNumber)
               == Some(("/var/vmail_index/" + (user + "@" + domain), garbage + "_index"))
  {
    hide SanitizeName, FormatInt, IndexName;
    IndexNameMeaning(domain, user, "");
    var a, b, c := "/var/vmail/_garbage/", FormatInt(now), SanitizeName(domain + ['/'] + user, letterOrNumber);
    assert ((a + b) + "_") + c == a + (b + ("_" + c));
  }

  /** The script of MaildirCleanup, and what a shell reads in it: the mailbox goes to the
      garbage directory and, for a name with a slash, its index as well. A name with a NUL
      character yields nothing a shell could run. */
  method MaildirCleanupScript(maildir: string, now: int, letterOrNumber: char -> bool) returns (script: string)
    requires !letterOrNumber('\0')
    ensures Tokens(script) ==
            if NulFree(maildir)
            then Some(JoinedMoves(CleanupMove(maildir, now, letterOrNumber),
                                  CleanupIndexMove(maildir, now, letterOrNumber)))
            else None
  {
    var saneName := SanitizeName(maildir, letterOrNumber);
    var timestamp := FormatInt(now);
    var garbage := "/var/vmail/_garbage/" + timestamp + "_" + saneName;
    script := MoveIfDirectory("/var/vmail/" + maildir, garbage);
    var first := script;
    var idx := IndexName(maildir);
    if idx.Some? {
      script := script + (" && " + MoveIfDirectory("/var/vmail_index/" + idx.value, garbage + "_index"));
    }
    if NulFree(maildir) {
      GarbageIsNulFree(maildir, now, letterOrNumber);
      NulFreeConcat("/var/vmail/", maildir);
      if idx.Some? {
        NulFreeIndex(maildir);
        NulFreeConcat("/var/vmail_index/", idx.value);
        NulFreeConcat(garbage, "_index");
        TokensOfTwoMoves(CleanupMove(maildir, now, letterOrNumber),
                         CleanupIndexMove(maildir, now, letterOrNumber).value);
      } else {
        TokensOfMove("/var/vmail/" + maildir, garbage);
      }
    } else {
      NulFreeConcat("/var/vmail/", maildir);
      MoveKeepsNul("/var/vmail/" + maildir, garbage);
      if idx.Some? {
        NulFreeConcat(first, script[|first|..]);
        assert script == first + script[|first|..];
      }
      NulRefused(START, script);
    }
  }

  lemma GarbageIsNulFree(maildir: string, now: int, letterOrNumber: char -> bool)
    requires !letterOrNumber('\0')
    ensures NulFree(GarbagePath(maildir, now, letterOrNumber))
  {
    FormatNatIsDigits(if now < 0 then -now else now);
    var sane := SanitizeName(maildir, letterOrNumber);
    assert '\0' !in FormatInt(now) && '\0' !in sane;
    NulFreeConcat("/var/vmail/_garbage/", FormatInt(now));
    NulFreeConcat("/var/vmail/_garbage/" + FormatInt(now), "_");
    NulFreeConcat("/var/vmail/_garbage/" + FormatInt(now) + "_", sane);
  }

  lemma MoveKeepsNul(src: string, dst: string)
    requires !NulFree(src) || !NulFree(dst)
    ensures !NulFree(MoveIfDirectory(src, dst))
  {
    var a := "if [[ -d " + ShellQuote(src);
    var b := a + " ]]; then /bin/mv " + ShellQuote(src) + " ";
    NulFreeConcat("if [[ -d ", ShellQuote(src));
    NulFreeConcat(a, " ]]; then /bin/mv ");
    NulFreeConcat(a + " ]]; then /bin/mv ", ShellQuote(src));
    NulFreeConcat(a + " ]]; then /bin/mv " + ShellQuote(src), " ");
    NulFreeConcat(b, ShellQuote(dst));
    NulFreeConcat(b + ShellQuote(dst), "; fi");
    if !NulFree(src) {
      QuoteKeepsNul(src);
    } else {
      QuoteKeepsNul(dst);
    }
  }

  function RelocateMove(oldMaildir: string, newMaildir: string): (string, string) {
    ("/var/vmail/" + oldMaildir, "/var/vmail/" + newMaildir)
  }

  /** The move of the index, if both names have one: from the plain old name to the new name
      with _index behind it. */
  function RelocateIndexMove(oldMaildir: string, newMaildir: string): Option<(string, string)> {
    match (IndexName(oldMaildir), IndexName(newMaildir))
    case (Some(oldIdx), Some(newIdx)) => Some(("/var/vmail_index/" + oldIdx, "/var/vmail_index/" + newIdx + "_index"))
    case _ => None
  }

  method MaildirMoveScript(oldMaildir: string, newMaildir: string) returns (script: string)
    ensures Tokens(script) ==
            if NulFree(oldMaildir) && NulFree(newMaildir)
            then Some(JoinedMoves(RelocateMove(oldMaildir, newMaildir), RelocateIndexMove(oldMaildir, newMaildir)))
            else None
  {
    script := MoveIfDirectory("/var/vmail/" + oldMaildir, "/var/vmail/" + newMaildir);
    var first := script;
    var oldIdx, newIdx := IndexName(oldMaildir), IndexName(newMaildir);
    if oldIdx.Some? && newIdx.Some? {
      script := script + (" && " + MoveIfDirectory("/var/vmail_index/" + oldIdx.value,
                                                   "/var/vmail_index/" + newIdx.value + "_index"));
    }
    NulFreeConcat("/var/vmail/", oldMaildir);
    NulFreeConcat("/var/vmail/", newMaildir);
    if NulFree(oldMaildir) && NulFree(newMaildir) {
      if oldIdx.Some? && newIdx.Some? {
        NulFreeIndex(oldMaildir);
        NulFreeIndex(newMaildir);
        NulFreeConcat("/var/vmail_index/", oldIdx.value);
        NulFreeConcat("/var/vmail_index/", newIdx.value);
        NulFreeConcat("/var/vmail_index/" + newIdx.value, "_index");
        TokensOfTwoMoves(RelocateMove(oldMaildir, newMaildir), RelocateIndexMove(oldMaildir, newMaildir).value);
      } else {
        TokensOfMove("/var/vmail/" + oldMaildir, "/var/vmail/" + newMaildir);
      }
    } else {
      MoveKeepsNul("/var/vmail/" + oldMaildir, "/var/vmail/" + newMaildir);
      if oldIdx.Some? && newIdx.Some? {
        NulFreeConcat(first, script[|first|..]);
        assert script == first + script[|first|..];
      }
      NulRefused(START, script);
    }
  }

  // ---- The shape of a script ----

  /** What is left of a token list when the content of quoted words is ignored. */
  function Shape(ts: seq<Token>): (shape: seq<Token>)
    ensures |shape| == |ts|
  {
    seq(|ts|, i requires 0 <= i < |ts| => if ts[i].Word? && ts[i].quoted then Word("", true) else ts[i])
  }

  /** No value from a request changes the operators, the fixed words or the number of
      words: scripts with the same commands have the same shape whatever the paths are. */
  lemma SameShape(a: (string, string), m: Option<(string, string)>, b: (string, string), n: Option<(string, string)>)
    requires m.Some? <==> n.Some?
    ensures Shape(JoinedMoves(a, m)) == Shape(JoinedMoves(b, n))
  {
  }

  // ---- DF and MySQLTzinfoToSQL ----

  const DF_FILTERS := " | /usr/bin/tail -n1 | " + ("/usr/bin/tr -s [:blank:] | " + "/usr/bin/tr ' ' ','")

  function DFScript(dir: string): string {
    "/bin/df -H " + ShellQuote(dir) + DF_FILTERS
  }

  function DFTokens(dir: string): seq<Token> {
    [ Word("/bin/df", false), Word("-H", false), Word(dir, true), Operator("|"), Word("/usr/bin/tail", false),
      Word("-n1", false), Operator("|"), Word("/usr/bin/tr", false), Word("-s", false), Word("[:blank:]", false),
      Operator("|"), Word("/usr/bin/tr", false), Word(" ", true), Word(",", true)
    ]
  }

  lemma DFText()
    ensures PhraseText(Then(Bare("/bin/df"), Then(Bare("-H"), End))) == "/bin/df -H "
  {
    assert PieceText(Bare("/bin/df")) == "/bin/df ";
    assert PieceText(Bare("-H")) == "-H ";
    assert "/bin/df " + ("-H " + "") == "/bin/df -H ";
  }

  lemma RunDF(s: Lexer)
    requires s.mode == Plain && s.pending == NoToken
    ensures Run(s, "/bin/df -H ")
         == s.(tokens := s.tokens + [Word("/bin/df", false), Word("-H", false)])
  {
    var ph := Then(Bare("/bin/df"), Then(Bare("-H"), End));
    assert PhraseTokens(ph) == [Word("/bin/df", false), Word("-H", false)];
    DFText();
    RunPhrase(s, ph);
  }

  lemma TailLiteral()
    ensures " " + ("| " + ("/usr/bin/tail " + ("-n1 " + ("| " + "")))) == " | /usr/bin/tail -n1 | "
  {
  }

  lemma TailText()
    ensures " " + PhraseText(Then(Op("|"), Then(Bare("/usr/bin/tail"), Then(Bare("-n1"), Then(Op("|"), End)))))
         == " | /usr/bin/tail -n1 | "
  {
    var d := Then(Op("|"), End);
    var c := Then(Bare("-n1"), d);
    var b := Then(Bare("/usr/bin/tail"), c);
    assert PieceText(Op("|")) == "| " && PieceText(Bare("-n1")) == "-n1 ";
    assert PieceText(Bare("/usr/bin/tail")) == "/usr/bin/tail ";
    assert PhraseText(d) == "| " + "";
    assert PhraseText(c) == "-n1 " + ("| " + "");
    assert PhraseText(b) == "/usr/bin/tail " + ("-n1 " + ("| " + ""));
    TailLiteral();
  }

  lemma RunTail(s: Lexer)
    requires s.mode == Plain
    ensures Run(s, " | /usr/bin/tail -n1 | ")
         == Lexer(Plain, NoToken, Delimit(s, ' ').tokens
                  + [Operator("|"), Word("/usr/bin/tail", false), Word("-n1", false), Operator("|")])
  {
    var ph := Then(Op("|"), Then(Bare("/usr/bin/tail"), Then(Bare("-n1"), Then(Op("|"), End))));
    assert PhraseTokens(ph) == [Operator("|"), Word("/usr/bin/tail", false), Word("-n1", false), Operator("|")];
    TailText();
    RunSpacedPhrase(s, ph);
  }

  lemma SqueezeText()
    ensures PhraseText(Then(Bare("/usr/bin/tr"), Then(Bare("-s"), Then(Bare("[:blank:]"), Then(Op("|"), End)))))
         == "/usr/bin/tr -s [:blank:] | "
  {
    var d := Then(Op("|"), End);
    var c := Then(Bare("[:blank:]"), d);
    var b := Then(Bare("-s"), c);
    assert PhraseText(d) == "| " + "" == "| ";
    assert PhraseText(c) == "[:blank:] " + "| " == "[:blank:] | ";
    assert PhraseText(b) == "-s " + "[:blank:] | " == "-s [:blank:] | ";
    assert PhraseText(Then(Bare("/usr/bin/tr"), b)) == "/usr/bin/tr " + "-s [:blank:] | ";
  }

  lemma RunSqueeze(s: Lexer)
    requires s.mode == Plain && s.pending == NoToken
    ensures Run(s, "/usr/bin/tr -s [:blank:] | ")
         == s.(tokens := s.tokens
                         + [Word("/usr/bin/tr", false), Word("-s", false), Word("[:blank:]", false), Operator("|")])
  {
    var ph := Then(Bare("/usr/bin/tr"), Then(Bare("-s"), Then(Bare("[:blank:]"), Then(Op("|"), End))));
    assert PhraseTokens(ph) == [Word("/usr/bin/tr", false), Word("-s", false), Word("[:blank:]", false), Operator("|")];
    SqueezeText();
    RunPhrase(s, ph);
  }

  lemma RunTranslate(s: Lexer)
    requires s.mode == Plain && s.pending == NoToken
    ensures Run(s, "/usr/bin/tr " + (ShellQuote(" ") + (" " + ShellQuote(","))))
         == Lexer(Plain, InWord(",", true), s.tokens + [Word("/usr/bin/tr", false), Word(" ", true)])
  {
    hide Run, ShellQuote;
    RunConcat(s, "/usr/bin/tr ", ShellQuote(" ") + (" " + ShellQuote(",")));
    assert "/usr/bin/tr" + " " == "/usr/bin/tr ";
    RunPiece(s, Bare("/usr/bin/tr"));
    var s1 := s.(tokens := s.tokens + [Word("/usr/bin/tr", false)]);
    RunConcat(s1, ShellQuote(" "), " " + ShellQuote(","));
    RunQuoted(s1, " ");
    RunConcat(Extend(s1, " ", true), " ", ShellQuote(","));
    RunBlank(Extend(s1, " ", true));
    RunQuoted(Delimit(Extend(s1, " ", true), ' '), ",");
    assert s1.tokens + [Word(" ", true)] == s.tokens + [Word("/usr/bin/tr", false), Word(" ", true)];
  }

  lemma TranslateText()
    ensures "/usr/bin/tr " + (ShellQuote(" ") + (" " + ShellQuote(","))) == "/usr/bin/tr ' ' ','"
  {
  }

  lemma DFTokensAssembled(dir: string)
    ensures [] + [Word("/bin/df", false), Word("-H", false)] + [Word(dir, true)]
              + [Operator("|"), Word("/usr/bin/tail", false), Word("-n1", false), Operator("|")]
              + [Word("/usr/bin/tr", false), Word("-s", false), Word("[:blank:]", false), Operator("|")]
              + [Word("/usr/bin/tr", false), Word(" ", true)] + [Word(",", true)]
         == DFTokens(dir)
  {
  }

  /** The df pipeline: the directory is one quoted word, everything else is fixed. */
  lemma DFScriptTokens(dir: string)
    ensures Tokens(DFScript(dir)) == if NulFree(dir) then Some(DFTokens(dir)) else None
  {
    if NulFree(dir) {
      DFScriptRuns(dir);
    } else {
      QuoteKeepsNul(dir);
      NulFreeConcat("/bin/df -H ", ShellQuote(dir));
      NulFreeConcat("/bin/df -H " + ShellQuote(dir), DF_FILTERS);
      NulRefused(START, DFScript(dir));
    }
  }

  lemma DFScriptRuns(dir: string)
    requires NulFree(dir)
    ensures Tokens(DFScript(dir)) == Some(DFTokens(dir))
  {
    var df, tail := "/bin/df -H ", " | /usr/bin/tail -n1 | ";
    var squeeze, translate := "/usr/bin/tr -s [:blank:] | ", "/usr/bin/tr ' ' ','";
    RunConcat(START, df + ShellQuote(dir), tail + (squeeze + translate));
    RunConcat(START, df, ShellQuote(dir));
    RunDF(START);
    var s1 := Run(START, df);
    RunQuoted(s1, dir);
    var s2 := Extend(s1, dir, true);
    RunConcat(s2, tail, squeeze + translate);
    RunTail(s2);
    var s3 := Run(s2, tail);
    RunConcat(s3, squeeze, translate);
    RunSqueeze(s3);
    TranslateText();
    RunTranslate(Run(s3, squeeze));
    DFTokensAssembled(dir);
  }

  lemma SedProgramSpelled()
    ensures SED_PROGRAM == "s/Local time zone must be set--see zic manual page/FCTY/"
  {
  }

  const SED_PROGRAM := "s/Local time zone must be set" + "--see zic manual page/FCTY/"

  function TzinfoScript(password: string): string {
    "/usr/bin/mysql_tzinfo_to_sql " + ("/usr/share/zoneinfo | /bin/sed " + ("'" + SED_PROGRAM + "'"))
    + (" | /usr/bin/mysql " + ("-uroot " + ("-p" + (ShellQuote(password) + " mysql"))))
  }

  function TzinfoTokens(password: string): seq<Token> {
    [ Word("/usr/bin/mysql_tzinfo_to_sql", false), Word("/usr/share/zoneinfo", false), Operator("|"),
      Word("/bin/sed", false), Word(SED_PROGRAM, true), Operator("|"), Word("/usr/bin/mysql", false),
      Word("-uroot", false), Word("-p" + password, true), Word("mysql", false)
    ]
  }

  lemma SedProgramIsQuoted()
    ensures "'" + SED_PROGRAM + "'" == ShellQuote(SED_PROGRAM) && NulFree(SED_PROGRAM)
  {
    var a, b := "s/Local time zone must be set", "--see zic manual page/FCTY/";
    assert '\'' !in a && NulFree(a);
    assert '\'' !in b && NulFree(b);
    NulFreeConcat(a, b);
    NothingToEscape(SED_PROGRAM);
  }

  lemma TzinfoWord()
    ensures WellFormed(Bare("/usr/bin/mysql_tzinfo_to_sql"))
  {
  }

  lemma RunTzinfo(s: Lexer)
    requires s.mode == Plain && s.pending == NoToken
    ensures Run(s, "/usr/bin/mysql_tzinfo_to_sql ")
         == s.(tokens := s.tokens + [Word("/usr/bin/mysql_tzinfo_to_sql", false)])
  {
    TzinfoWord();
    assert "/usr/bin/mysql_tzinfo_to_sql" + " " == "/usr/bin/mysql_tzinfo_to_sql ";
    RunPiece(s, Bare("/usr/bin/mysql_tzinfo_to_sql"));
  }

  lemma SedText()
    ensures PhraseText(Then(Bare("/usr/share/zoneinfo"), Then(Op("|"), Then(Bare("/bin/sed"), End))))
         == "/usr/share/zoneinfo | /bin/sed "
  {
    assert PieceText(Bare("/usr/share/zoneinfo")) == "/usr/share/zoneinfo ";
    assert PieceText(Op("|")) == "| ";
    assert PieceText(Bare("/bin/sed")) == "/bin/sed ";
    assert "/usr/share/zoneinfo " + ("| " + ("/bin/sed " + "")) == "/usr/share/zoneinfo | /bin/sed ";
  }

  lemma RunSed(s: Lexer)
    requires s.mode == Plain && s.pending == NoToken
    ensures Run(s, "/usr/share/zoneinfo | /bin/sed ")
         == s.(tokens := s.tokens + [Word("/usr/share/zoneinfo", false), Operator("|"), Word("/bin/sed", false)])
  {
    var ph := Then(Bare("/usr/share/zoneinfo"), Then(Op("|"), Then(Bare("/bin/sed"), End)));
    assert PhraseTokens(ph) == [Word("/usr/share/zoneinfo", false), Operator("|"), Word("/bin/sed", false)];
    SedText();
    RunPhrase(s, ph);
  }

  lemma MySQLText()
    ensures " " + PhraseText(Then(Op("|"), Then(Bare("/usr/bin/mysql"), End))) == " | /usr/bin/mysql "
  {
    assert PieceText(Op("|")) == "| ";
    assert PieceText(Bare("/usr/bin/mysql")) == "/usr/bin/mysql ";
    assert " " + ("| " + ("/usr/bin/mysql " + "")) == " | /usr/bin/mysql ";
  }

  lemma RunMySQL(s: Lexer)
    requires s.mode == Plain
    ensures Run(s, " | /usr/bin/mysql ")
         == Lexer(Plain, NoToken, Delimit(s, ' ').tokens + [Operator("|"), Word("/usr/bin/mysql", false)])
  {
    var ph := Then(Op("|"), Then(Bare("/usr/bin/mysql"), End));
    assert PhraseTokens(ph) == [Operator("|"), Word("/usr/bin/mysql", false)];
    MySQLText();
    RunSpacedPhrase(s, ph);
  }

  lemma RunRoot(s: Lexer)
    requires s.mode == Plain && s.pending == NoToken
    ensures Run(s, "-uroot ") == s.(tokens := s.tokens + [Word("-uroot", false)])
  {
    assert "-uroot" + " " == "-uroot ";
    RunPiece(s, Bare("-uroot"));
  }

  lemma RunDatabase(s: Lexer)
    requires s.mode == Plain
    ensures Run(s, " mysql") == Lexer(Plain, InWord("mysql", false), Delimit(s, ' ').tokens)
  {
    hide Run;
    assert " mysql" == " " + "mysql";
    RunConcat(s, " ", "mysql");
    RunBlank(s);
    RunOrdinary(Delimit(s, ' '), "mysql");
  }

  lemma RunPassword(s: Lexer, password: string)
    requires s.mode == Plain && s.pending == NoToken && NulFree(password)
    ensures Run(s, "-p" + (ShellQuote(password) + " mysql"))
         == Lexer(Plain, InWord("mysql", false), s.tokens + [Word("-p" + password, true)])
  {
    RunConcat(s, "-p", ShellQuote(password) + " mysql");
    RunOrdinary(s, "-p");
    var s1 := Extend(s, "-p", false);
    RunConcat(s1, ShellQuote(password), " mysql");
    RunQuoted(s1, password);
    RunDatabase(Extend(s1, password, true));
  }

  lemma RunTzinfoTail(s: Lexer, password: string)
    requires s.mode == Plain && NulFree(password)
    ensures Run(s, " | /usr/bin/mysql " + ("-uroot " + ("-p" + (ShellQuote(password) + " mysql"))))
         == Lexer(Plain, InWord("mysql", false), Delimit(s, ' ').tokens
              + [Operator("|"), Word("/usr/bin/mysql", false)] + [Word("-uroot", false)]
              + [Word("-p" + password, true)])
  {
    var login := "-p" + (ShellQuote(password) + " mysql");
    RunConcat(s, " | /usr/bin/mysql ", "-uroot " + login);
    RunMySQL(s);
    var s1 := Run(s, " | /usr/bin/mysql ");
    RunConcat(s1, "-uroot ", login);
    RunRoot(s1);
    RunPassword(Run(s1, "-uroot "), password);
  }

  lemma TzinfoTokensAssembled(password: string)
    ensures [] + [Word("/usr/bin/mysql_tzinfo_to_sql", false)]
              + [Word("/usr/share/zoneinfo", false), Operator("|"), Word("/bin/sed", false)] + [Word(SED_PROGRAM, true)]
              + [Operator("|"), Word("/usr/bin/mysql", false)] + [Word("-uroot", false)]
              + [Word("-p" + password, true)] + [Word("mysql", false)]
         == TzinfoTokens(password)
  {
  }

  lemma RunTzinfoHead(s: Lexer)
    requires s.mode == Plain && s.pending == NoToken
    ensures Run(s, "/usr/bin/mysql_tzinfo_to_sql " + ("/usr/share/zoneinfo | /bin/sed " + ("'" + SED_PROGRAM + "'")))
         == Lexer(Plain, InWord(SED_PROGRAM, true), s.tokens + [Word("/usr/bin/mysql_tzinfo_to_sql", false)]
              + [Word("/usr/share/zoneinfo", false), Operator("|"), Word("/bin/sed", false)])
  {
    var tzinfo, sed := "/usr/bin/mysql_tzinfo_to_sql ", "/usr/share/zoneinfo | /bin/sed ";
    var program := "'" + SED_PROGRAM + "'";
    RunConcat(s, tzinfo, sed + program);
    RunTzinfo(s);
    var s1 := Run(s, tzinfo);
    RunConcat(s1, sed, program);
    RunSed(s1);
    SedProgramIsQuoted();
    RunQuoted(Run(s1, sed), SED_PROGRAM);
  }

  /** The tzinfo pipeline: the password is attached to -p within one word. */
  lemma TzinfoScriptTokens(password: string)
    ensures Tokens(TzinfoScript(password)) == if NulFree(password) then Some(TzinfoTokens(password)) else None
  {
    var head := "/usr/bin/mysql_tzinfo_to_sql " + ("/usr/share/zoneinfo | /bin/sed " + ("'" + SED_PROGRAM + "'"));
    var tail := " | /usr/bin/mysql " + ("-uroot " + ("-p" + (ShellQuote(password) + " mysql")));
    if NulFree(password) {
      RunConcat(START, head, tail);
      RunTzinfoHead(START);
      RunTzinfoTail(Run(START, head), password);
      TzinfoTokensAssembled(password);
    } else {
      QuoteKeepsNul(password);
      NulFreeConcat(ShellQuote(password), " mysql");
      NulFreeConcat("-p", ShellQuote(password) + " mysql");
      NulFreeConcat("-uroot ", "-p" + (ShellQuote(password) + " mysql"));
      NulFreeConcat(" | /usr/bin/mysql ", "-uroot " + ("-p" + (ShellQuote(password) + " mysql")));
      NulFreeConcat(head, tail);
      NulRefused(START, TzinfoScript(password));
    }
  }
}
