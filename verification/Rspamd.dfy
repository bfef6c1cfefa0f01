/** Changing the rspamd controller password (internal/actions/rspamd.go): the command
    that generates the hash, and the loop that writes, verifies and restarts. */
module Rspamd {
  import opened Options
  import opened Sequences
  import opened Shell
  import opened Text

  const PASSWORD_FILE := "/etc/rspamd/override.d/" + "worker-controller-password.inc"

  const HASH_PREFIX := "$2$"

  // ---- Finding and cleaning the hash ----

  /** The hash pattern matches at i: the prefix, then at least one character and no line
      break up to the end. */
  predicate HashStartsAt(t: string, i: nat) {
    OccursAt(t, HASH_PREFIX, i) && i + 3 < |t| && '\n' !in t[i + 3..]
  }

  function MatchFrom(t: string, from: nat): (r: Option<nat>)
    requires from <= |t|
    ensures r.Some? ==> HashStartsAt(t, r.value) && forall j: nat | from <= j < r.value :: !HashStartsAt(t, j)
    ensures r.None? ==> forall j: nat | from <= j :: !HashStartsAt(t, j)
    decreases |t| - from
  {
    if HashStartsAt(t, from) then Some(from)
    else if from == |t| then None
    else MatchFrom(t, from + 1)
  }

  /** The leftmost match of the hash pattern, or nothing. */
  function FindHash(t: string): (r: string)
    ensures r != "" ==>
              exists i: nat :: HashStartsAt(t, i) && r == t[i..] && forall j: nat | j < i :: !HashStartsAt(t, j)
    ensures r == "" ==> forall i: nat :: !HashStartsAt(t, i)
  {
    match MatchFrom(t, 0)
    case None => ""
    case Some(i) => t[i..]
  }

  predicate IsHashCharacter(c: char) {
    '0' <= c <= '9' || 'a' <= c <= 'z' || 'A' <= c <= 'Z' || c == '$'
  }

  function Sanitize(s: string): (r: string)
    ensures forall c | c in r :: IsHashCharacter(c)
  {
    if s == "" then "" else (if IsHashCharacter(s[0]) then [s[0]] else "") + Sanitize(s[1..])
  }

  /** Wherever a character stands, it is kept if it is a letter, a digit or a dollar sign and
      dropped if not. */
  lemma {:induction false} SanitizeFilters(a: string, c: char, b: string)
    ensures Sanitize(a + ([c] + b))
         == Sanitize(a)
            + ((if '0' <= c <= '9' || 'a' <= c <= 'z' || 'A' <= c <= 'Z' || c == '$' then [c] else "") + Sanitize(b))
  {
    var s := a + ([c] + b);
    if a == "" {
      assert s == [c] + b && s[1..] == b;
    } else {
      assert s[0] == a[0] && s[1..] == a[1..] + ([c] + b);
      SanitizeFilters(a[1..], c, b);
    }
  }

  lemma {:induction false} NothingToSanitize(s: string)
    requires forall c | c in s :: '0' <= c <= '9' || 'a' <= c <= 'z' || 'A' <= c <= 'Z' || c == '$'
    ensures Sanitize(s) == s
  {
    if s != "" {
      assert s[0] in s && forall c | c in s[1..] :: c in s;
      NothingToSanitize(s[1..]);
      assert s == [s[0]] + s[1..];
    }
  }

  /** Cleaning never touches the prefix. */
  lemma SanitizeKeepsPrefix(s: string)
    requires HASH_PREFIX <= s
    ensures HASH_PREFIX <= Sanitize(s)
  {
    assert s[0] == '$' && s[1] == '2' && s[2] == '$';
    assert s[1..][1..] == s[2..] && s[2..][1..] == s[3..];
    assert Sanitize(s) == ['$'] + Sanitize(s[1..]);
    assert Sanitize(s[1..]) == ['2'] + Sanitize(s[2..]);
    assert Sanitize(s[2..]) == ['$'] + Sanitize(s[3..]);
  }

  lemma FoundHasPrefix(t: string)
    ensures FindHash(t) != "" ==> HASH_PREFIX <= FindHash(t)
  {
    var m := MatchFrom(t, 0);
    if m.Some? {
      assert t[m.value..][..3] == t[m.value..m.value + 3];
    }
  }

  /** What may be written: the prefix and hash characters only. */
  predicate IsClean(hash: string) {
    HASH_PREFIX <= hash && forall c | c in hash :: IsHashCharacter(c)
  }

  /** The hash a line of output carries, if any. */
  function HashOf(line: string): (r: Option<string>)
    ensures r.Some? ==> IsClean(r.value)
  {
    var found := FindHash(TrimSpace(line));
    FoundHasPrefix(TrimSpace(line));
    if found == "" then None
    else
      SanitizeKeepsPrefix(found);
      Some(Sanitize(found))
  }

  /** A match at position n with none before it is the one that is found. */
  lemma FindHashAt(before: string, hash: string)
    requires HASH_PREFIX <= hash && |hash| > 3 && '\n' !in hash
    requires forall j: nat | j < |before| :: !OccursAt(before + hash, HASH_PREFIX, j)
    ensures FindHash(before + hash) == hash
  {
    var t := before + hash;
    assert t[|before|..] == hash && t[|before|..|before| + 3] == hash[..3];
    assert hash[..3] == HASH_PREFIX;
    assert t[|before| + 3..] == hash[3..];
    assert HashStartsAt(t, |before|);
  }

  /** The hash is what stands on the line from the first $2$ on, without the white space at
      the end, with every character cleaned away that is no letter, digit or dollar sign. */
  lemma HashOfLine(lead: string, before: string, body: string, trail: string)
    requires AllSpace(lead) && AllSpace(trail) && '\n' !in body
    requires body != "" && !IsSpace(body[|body| - 1])
    requires before != "" ==> !IsSpace(before[0])
    requires forall j: nat | j < |before| :: !OccursAt(before + ("$2$" + body), "$2$", j)
    ensures HashOf(lead + ((before + ("$2$" + body)) + trail)) == Some(Sanitize("$2$" + body))
  {
    hide TrimSpace, FindHash, Sanitize;
    TrimSpaceBetween(lead, before + ("$2$" + body), trail);
    FindHashAt(before, "$2$" + body);
  }

  /** A prefix with nothing but white space behind it is no hash, and without the prefix there
      is none. */
  lemma NoHashOnLine(lead: string, before: string, trail: string)
    requires AllSpace(lead) && AllSpace(trail) && (before != "" ==> !IsSpace(before[0]))
    ensures (forall j: nat | j < |before| :: !OccursAt(before + "$2$", "$2$", j)) ==>
              HashOf(lead + ((before + "$2$") + trail)) == None
    ensures !Contains(before, "$2$") ==> HashOf(before) == None
  {
    hide TrimSpace, FindHash, Sanitize;
    MatchNeedsPrefix(before);
    var t := before + "$2$";
    TrimSpaceBetween(lead, t, trail);
    if forall j: nat | j < |before| :: !OccursAt(t, "$2$", j) {
      PrefixAtEnd(before);
    }
  }

  lemma PrefixAtEnd(before: string)
    requires forall j: nat | j < |before| :: !OccursAt(before + "$2$", "$2$", j)
    ensures FindHash(before + "$2$") == ""
  {
    var t := before + "$2$";
    forall j: nat ensures !HashStartsAt(t, j) {
      assert j < |before| ==> !OccursAt(t, HASH_PREFIX, j);
    }
  }

  /** So the hash that rspamadm prints on a line of its own is written as it is. */
  lemma PrintedHash(lead: string, body: string, trail: string)
    requires AllSpace(lead) && AllSpace(trail) && body != ""
    requires forall c | c in body :: '0' <= c <= '9' || 'a' <= c <= 'z' || 'A' <= c <= 'Z' || c == '$'
    ensures HashOf(lead + (("$2$" + body) + trail)) == Some("$2$" + body)
  {
    hide HashOf;
    assert body[|body| - 1] in body;
    HashOfLine(lead, "", body, trail);
    assert "" + ("$2$" + body) == "$2$" + body;
    NothingToSanitize("$2$" + body);
  }

  lemma {:induction false} TrimSpaceIsSlice(line: string) returns (k: nat)
    ensures k + |TrimSpace(line)| <= |line|
    ensures line[k..k + |TrimSpace(line)|] == TrimSpace(line)
  {
    k := |line| - |TrimLeft(line, IsSpace)|;
  }

  lemma OccursInSlice(s: string, sub: string, k: nat, n: nat, i: nat)
    requires k + n <= |s| && OccursAt(s[k..k + n], sub, i)
    ensures OccursAt(s, sub, k + i)
  {
    forall j | 0 <= j < |sub| ensures s[k + i..k + i + |sub|][j] == sub[j] {
      assert s[k..k + n][i..i + |sub|][j] == s[k..k + n][i + j];
    }
  }

  /** A line whose trimmed text matches contains the prefix. */
  lemma {:induction false} MatchNeedsPrefix(line: string)
    ensures FindHash(TrimSpace(line)) != "" ==> Contains(line, HASH_PREFIX)
  {
    hide TrimSpace, MatchFrom;
    var t := TrimSpace(line);
    var m := MatchFrom(t, 0);
    if m.Some? {
      var k := TrimSpaceIsSlice(line);
      OccursInSlice(line, HASH_PREFIX, k, |t|, m.value);
    }
  }

  // ---- The world the loop acts on ----

  /** An effect and how it turned out: the write command for a hash, with the file read
      back (None is an error), or a restart. */
  datatype Event =
    | Written(hash: string, readback: Option<string>)
    | Restarted(ok: bool)

  /** How the container answers the effect at each position of the history. */
  datatype Answers = Answers(readback: nat -> Option<string>, restart: nat -> bool)

  class Container {
    const answers: Answers
    ghost var history: seq<Event>
    var count: nat

    ghost predicate Valid()
      reads this
    {
      count == |history|
    }

    constructor (answers: Answers)
      ensures Valid() && history == [] && this.answers == answers
    {
      this.answers, history, count := answers, [], 0;
    }

    /** ExecInteractive with the command that writes the file and prints it. */
    method Write(ghost hash: string, command: string) returns (readback: Option<string>)
      requires Valid() && command == WriteCommand(hash)
      modifies this
      ensures Valid() && readback == answers.readback(old(count))
      ensures history == old(history) + [Written(hash, readback)]
    {
      readback := answers.readback(count);
      history, count := history + [Written(hash, readback)], count + 1;
    }

    method Restart() returns (ok: bool)
      requires Valid()
      modifies this
      ensures Valid() && ok == answers.restart(old(count))
      ensures history == old(history) + [Restarted(ok)]
    {
      ok := answers.restart(count);
      history, count := history + [Restarted(ok)], count + 1;
    }
  }

  // ---- What the loop does, line by line ----

  function ConfigLine(hash: string): string {
    "enable_password = \"" + hash + "\";"
  }

  function WriteCommand(hash: string): string {
    "/bin/echo " + ("'" + ConfigLine(hash) + "'") + (" > " + (PASSWORD_FILE + (" && " + ("cat " + PASSWORD_FILE))))
  }

  /** The file read back holds the hash. */
  predicate Confirmed(e: Event) {
    e.Written? && e.readback.Some? && Contains(e.readback.value, e.hash)
  }

  /** One write, followed by a restart when the file confirms it. */
  function HashEvents(hash: string, at: nat, answers: Answers): seq<Event> {
    var w := Written(hash, answers.readback(at));
    if Confirmed(w) then [w, Restarted(answers.restart(at + 1))] else [w]
  }

  function LineEvents(hash: Option<string>, at: nat, answers: Answers): seq<Event> {
    match hash
    case None => []
    case Some(h) => HashEvents(h, at, answers)
  }

  /** The effects of going through the lines that carry the given hashes. */
  function Events(hashes: seq<Option<string>>, at: nat, answers: Answers): seq<Event> {
    if hashes == [] then []
    else
      var first := LineEvents(hashes[0], at, answers);
      first + Events(hashes[1..], at + |first|, answers)
  }

  function HashesOf(output: string): (hashes: seq<Option<string>>)
    ensures forall h | h in hashes && h.Some? :: IsClean(h.value)
  {
    var lines := Split(output, '\n');
    seq(|lines|, i requires 0 <= i < |lines| => HashOf(lines[i]))
  }

  /** One line's effects, and those of the lines after it, seen from a history h. */
  lemma {:induction false} EventsUnfold(hashes: seq<Option<string>>, i: nat, h: seq<Event>, answers: Answers)
    requires i < |hashes|
    ensures var step := LineEvents(hashes[i], |h|, answers);
            var rest := Events(hashes[i + 1..], |h + step|, answers);
            && h + Events(hashes[i..], |h|, answers) == (h + step) + rest
            && (Restarted(true) in Events(hashes[i..], |h|, answers)
                <==> Restarted(true) in step || Restarted(true) in rest)
  {
    hide LineEvents;
    var step := LineEvents(hashes[i], |h|, answers);
    assert hashes[i..][1..] == hashes[i + 1..];
    Reassociate(h, step, Events(hashes[i + 1..], |h| + |step|, answers));
  }

  /** applyRspamdHash. Every line is handled in turn; the result tells whether some
      restart succeeded. */
  method ApplyHash(c: Container, output: string) returns (matched: bool)
    requires c.Valid()
    modifies c
    ensures c.Valid()
    ensures c.history == old(c.history) + Events(HashesOf(output), |old(c.history)|, c.answers)
    ensures matched <==> Restarted(true) in Events(HashesOf(output), |old(c.history)|, c.answers)
  {
    matched := ApplyLines(c, Split(output, '\n'), HashesOf(output));
  }

  /** The loop itself, over lines that carry the given hashes. */
  method ApplyLines(c: Container, lines: seq<string>, ghost hashes: seq<Option<string>>) returns (matched: bool)
    requires c.Valid()
    requires |hashes| == |lines| && forall i | 0 <= i < |lines| :: hashes[i] == HashOf(lines[i])
    modifies c
    ensures c.Valid()
    ensures c.history == old(c.history) + Events(hashes, |old(c.history)|, c.answers)
    ensures matched <==> Restarted(true) in Events(hashes, |old(c.history)|, c.answers)
  {
    matched := false;
    ghost var before, all := c.history, Events(hashes, |c.history|, c.answers);
    assert hashes[0..] == hashes;
    var i := 0;
    while i < |lines|
      invariant 0 <= i <= |lines|
      invariant c.Valid()
      invariant c.history + Events(hashes[i..], |c.history|, c.answers) == before + all
      invariant matched || Restarted(true) in Events(hashes[i..], |c.history|, c.answers) <==> Restarted(true) in all
    {
      EventsUnfold(hashes, i, c.history, c.answers);
      var ok := ApplyLine(c, lines[i], hashes[i]);
      matched := matched || ok;
      i := i + 1;
    }
  }

  /** The loop body. */
  method ApplyLine(c: Container, line: string, ghost hash: Option<string>) returns (ok: bool)
    requires c.Valid() && hash == HashOf(line)
    modifies c
    ensures c.Valid()
    ensures c.history == old(c.history) + LineEvents(hash, |old(c.history)|, c.answers)
    ensures ok <==> Restarted(true) in LineEvents(hash, |old(c.history)|, c.answers)
  {
    hide HashOf;
    ok := false;
    var found := ExtractHash(line);
    if found.Some? {
      ok := WriteAndRestart(c, found.value);
    } else {
      assert c.history + [] == c.history;
    }
  }

  /** The guards of the loop body: a line without a usable hash is passed over. */
  method ExtractHash(line: string) returns (hash: Option<string>)
    ensures hash == HashOf(line)
  {
    MatchNeedsPrefix(line);
    if !Contains(line, HASH_PREFIX) {
      return None;
    }
    var found := FindHash(TrimSpace(line));
    if found == "" {
      return None;
    }
    FoundHasPrefix(TrimSpace(line));
    SanitizeKeepsPrefix(found);
    found := Sanitize(found);
    if !(HASH_PREFIX <= found) {
      assert false;
      return None;
    }
    return Some(found);
  }

  /** The effects of the loop body. */
  method WriteAndRestart(c: Container, hash: string) returns (ok: bool)
    requires c.Valid()
    modifies c
    ensures c.Valid()
    ensures c.history == old(c.history) + HashEvents(hash, |old(c.history)|, c.answers)
    ensures ok <==> Restarted(true) in HashEvents(hash, |old(c.history)|, c.answers)
  {
    ok := false;
    var command := WriteCommand(hash);
    var readback := c.Write(hash, command);
    ghost var w := Written(hash, readback);
    if readback.None? || !Contains(readback.value, hash) {
      assert !Confirmed(w);
      return;
    }
    assert Confirmed(w);
    ok := c.Restart();
  }

  // ---- What the trace of any output satisfies ----

  /** Event i is a write of a clean hash that the file read back confirms. */
  predicate ConfirmedAt(es: seq<Event>, i: nat) {
    i < |es| && Confirmed(es[i]) && IsClean(es[i].hash)
  }

  predicate RestartsFollowWrites(es: seq<Event>) {
    forall i | 0 <= i < |es| && es[i].Restarted? :: i > 0 && ConfirmedAt(es, i - 1)
  }

  predicate ConfirmedWritesRestart(es: seq<Event>) {
    forall i | 0 <= i < |es| && Confirmed(es[i]) :: i + 1 < |es| && es[i + 1].Restarted?
  }

  predicate AllClean(hashes: seq<Option<string>>) {
    forall h | h in hashes && h.Some? :: IsClean(h.value)
  }

  lemma {:induction false} TraceShape(hashes: seq<Option<string>>, at: nat, answers: Answers)
    requires AllClean(hashes)
    ensures RestartsFollowWrites(Events(hashes, at, answers))
    ensures ConfirmedWritesRestart(Events(hashes, at, answers))
  {
    if hashes != [] {
      var first := LineEvents(hashes[0], at, answers);
      assert hashes[0] in hashes;
      LineShape(hashes[0], at, answers);
      TraceShape(hashes[1..], at + |first|, answers);
      ShapeConcat(first, Events(hashes[1..], at + |first|, answers));
    }
  }

  lemma LineShape(hash: Option<string>, at: nat, answers: Answers)
    requires hash.Some? ==> IsClean(hash.value)
    ensures RestartsFollowWrites(LineEvents(hash, at, answers))
    ensures ConfirmedWritesRestart(LineEvents(hash, at, answers))
  {
    var es := LineEvents(hash, at, answers);
    assert |es| == 2 ==> ConfirmedAt(es, 0);
  }

  lemma ShapeConcat(a: seq<Event>, b: seq<Event>)
    requires RestartsFollowWrites(a) && RestartsFollowWrites(b)
    requires ConfirmedWritesRestart(a) && ConfirmedWritesRestart(b)
    ensures RestartsFollowWrites(a + b) && ConfirmedWritesRestart(a + b)
  {
    forall i | 0 <= i < |a + b| && (a + b)[i].Restarted? ensures i > 0 && ConfirmedAt(a + b, i - 1) {
      if i < |a| {
        assert ConfirmedAt(a, i - 1);
      } else {
        assert ConfirmedAt(b, i - |a| - 1);
      }
    }
    forall i | 0 <= i < |a + b| && Confirmed((a + b)[i]) ensures i + 1 < |a + b| && (a + b)[i + 1].Restarted? {
      if i < |a| {
        assert a[i + 1].Restarted?;
      } else {
        assert b[i - |a| + 1].Restarted?;
      }
    }
  }

  /** The password counts as changed exactly when some hash was written, confirmed by the
      file read back, and directly followed by a successful restart; and no restart happens
      in any other place. */
  lemma MatchedMeans(output: string, at: nat, answers: Answers)
    ensures var es := Events(HashesOf(output), at, answers);
            && RestartsFollowWrites(es)
            && (Restarted(true) in es
                <==> exists i: nat :: ConfirmedAt(es, i) && i + 1 < |es| && es[i + 1] == Restarted(true))
  {
    var es := Events(HashesOf(output), at, answers);
    TraceShape(HashesOf(output), at, answers);
    if Restarted(true) in es {
      var j :| 0 <= j < |es| && es[j] == Restarted(true);
      assert ConfirmedAt(es, j - 1) && es[j - 1 + 1] == Restarted(true);
    }
  }

  /** The hashes written, in order. */
  function WrittenHashes(es: seq<Event>): seq<string> {
    if es == [] then []
    else (if es[0].Written? then [es[0].hash] else []) + WrittenHashes(es[1..])
  }

  /** The hashes that the lines carry, in order. */
  function Present(hashes: seq<Option<string>>): seq<string> {
    if hashes == [] then []
    else (match hashes[0] case None => [] case Some(h) => [h]) + Present(hashes[1..])
  }

  lemma {:induction false} WrittenHashesConcat(a: seq<Event>, b: seq<Event>)
    ensures WrittenHashes(a + b) == WrittenHashes(a) + WrittenHashes(b)
  {
    if a == [] {
      assert a + b == b;
    } else {
      assert (a + b)[1..] == a[1..] + b;
      WrittenHashesConcat(a[1..], b);
    }
  }

  /** Nothing is skipped, repeated or reordered: every hash found is written exactly once,
      whatever became of the writes before it. */
  lemma {:induction false} EveryHashWritten(hashes: seq<Option<string>>, at: nat, answers: Answers)
    ensures WrittenHashes(Events(hashes, at, answers)) == Present(hashes)
  {
    hide LineEvents, WrittenHashes;
    if hashes == [] {
      NothingWritten();
    } else {
      var first := LineEvents(hashes[0], at, answers);
      EveryHashWritten(hashes[1..], at + |first|, answers);
      WrittenHashesConcat(first, Events(hashes[1..], at + |first|, answers));
      OneLineWritten(hashes[0], at, answers);
    }
  }

  lemma NothingWritten()
    ensures WrittenHashes([]) == []
  {
  }

  lemma OneLineWritten(hash: Option<string>, at: nat, answers: Answers)
    ensures WrittenHashes(LineEvents(hash, at, answers)) == match hash case None => [] case Some(h) => [h]
  {
    var es := LineEvents(hash, at, answers);
    if |es| == 2 {
      assert es[1..] == [es[1]] && [es[1]][1..] == [];
      assert WrittenHashes([es[1]]) == [];
    }
  }

  // ---- The commands a shell reads ----

  /** The text that the commands are built from, spelled out. */
  lemma CommandsSpelled(hash: string)
    ensures PASSWORD_FILE == "/etc/rspamd/override.d/worker-controller-password.inc"
    ensures ConfigLine(hash) == "enable_password = \"" + (hash + "\";")
  {
  }

  /** ExecInteractive ends every command with a line break. */
  function StdinLine(command: string): string {
    if command != "" && command[|command| - 1] == '\n' then command else command + "\n"
  }

  function WriteTokens(hash: string): seq<Token> {
    [ Word("/bin/echo", false), Word(ConfigLine(hash), true), Operator(">"), Word(PASSWORD_FILE, false),
      Operator("&&"), Word("cat", false), Word(PASSWORD_FILE, false), NewLine
    ]
  }

  lemma PasswordFileIsOrdinary()
    ensures AllOrdinary(PASSWORD_FILE) && PASSWORD_FILE != ""
  {
    var a, b := "/etc/rspamd/override.d/", "worker-controller-password.inc";
    assert AllOrdinary(a);
    assert AllOrdinary(b);
  }

  lemma ConfigLineIsQuoted(hash: string)
    requires IsClean(hash)
    ensures "'" + ConfigLine(hash) + "'" == ShellQuote(ConfigLine(hash)) && NulFree(ConfigLine(hash))
  {
    var open', close' := "enable_password = \"", "\";";
    assert '\'' !in open' && '\0' !in open';
    assert '\'' !in close' && '\0' !in close';
    assert '\'' !in hash && '\0' !in hash;
    NothingToEscape(ConfigLine(hash));
  }

  lemma RunWord(s: Lexer, w: string)
    requires s.mode == Plain && s.pending == NoToken && w != "" && AllOrdinary(w)
    ensures Run(s, w + " ") == s.(tokens := s.tokens + [Word(w, false)])
  {
    RunPiece(s, Bare(w));
  }

  /** " > file && cat file", read after a word. */
  lemma RunRedirection(s: Lexer)
    requires s.mode == Plain && !s.pending.InOperator?
    ensures Run(s, " > " + (PASSWORD_FILE + (" && " + ("cat " + PASSWORD_FILE))))
         == Lexer(Plain, InWord(PASSWORD_FILE, false),
                  Delimit(s, ' ').tokens + [Operator(">")] + [Word(PASSWORD_FILE, false)]
                  + [Operator("&&")] + [Word("cat", false)])
  {
    hide Run, AllOrdinary;
    PasswordFileIsOrdinary();
    CatIsOrdinary();
    var tail := " && " + ("cat " + PASSWORD_FILE);
    RunConcat(s, " > ", PASSWORD_FILE + tail);
    RunSpacedOperator(s, ">");
    var s1 := Run(s, " > ");
    RunConcat(s1, PASSWORD_FILE, tail);
    RunOrdinary(s1, PASSWORD_FILE);
    var s2 := Extend(s1, PASSWORD_FILE, false);
    RunConcat(s2, " && ", "cat " + PASSWORD_FILE);
    RunSpacedOperator(s2, "&&");
    var s3 := Run(s2, " && ");
    RunConcat(s3, "cat ", PASSWORD_FILE);
    assert "cat " == "cat" + " ";
    RunWord(s3, "cat");
    RunOrdinary(Run(s3, "cat "), PASSWORD_FILE);
  }

  lemma CatIsOrdinary()
    ensures AllOrdinary("cat")
  {
  }

  lemma RunSpacedOperator(s: Lexer, op: string)
    requires s.mode == Plain && (op == ">" || op == "&&")
    ensures Run(s, " " + (op + " ")) == Lexer(Plain, NoToken, Delimit(s, ' ').tokens + [Operator(op)])
    ensures op == ">" ==> " " + (op + " ") == " > "
    ensures op == "&&" ==> " " + (op + " ") == " && "
  {
    RunConcat(s, " ", op + " ");
    RunBlank(s);
    RunOperator(Delimit(s, ' '), op);
    assert Delimit(s, ' ').tokens + [] + [Operator(op)] == Delimit(s, ' ').tokens + [Operator(op)];
  }

  lemma WriteTokensAssembled(hash: string)
    ensures [] + [Word("/bin/echo", false)] + [Word(ConfigLine(hash), true)]
              + [Operator(">")] + [Word(PASSWORD_FILE, false)]
              + [Operator("&&")] + [Word("cat", false)] + [Word(PASSWORD_FILE, false)] + [NewLine]
         == WriteTokens(hash)
  {
  }

  lemma FinishClosed(s: Lexer)
    requires s.mode == Plain && s.pending == NoToken
    ensures Finish(s) == Some(s.tokens)
  {
    assert s.tokens + [] == s.tokens;
  }

  lemma RunLineBreak(s: Lexer)
    requires s.mode == Plain && s.pending.InWord?
    ensures Run(s, "\n") == Lexer(Plain, NoToken, Delimit(s, '\n').tokens + [NewLine])
  {
    RunChar(s, '\n');
  }

  lemma RunWriteCommand(hash: string)
    requires IsClean(hash)
    ensures Run(START, WriteCommand(hash))
         == Lexer(Plain, InWord(PASSWORD_FILE, false), [] + [Word("/bin/echo", false)] + [Word(ConfigLine(hash), true)]
              + [Operator(">")] + [Word(PASSWORD_FILE, false)] + [Operator("&&")] + [Word("cat", false)])
  {
    var tail := " > " + (PASSWORD_FILE + (" && " + ("cat " + PASSWORD_FILE)));
    RunConcat(START, "/bin/echo " + ("'" + ConfigLine(hash) + "'"), tail);
    RunConcat(START, "/bin/echo ", "'" + ConfigLine(hash) + "'");
    assert "/bin/echo " == "/bin/echo" + " ";
    RunWord(START, "/bin/echo");
    var s1 := Run(START, "/bin/echo ");
    ConfigLineIsQuoted(hash);
    RunQuoted(s1, ConfigLine(hash));
    RunRedirection(Extend(s1, ConfigLine(hash), true));
  }

  /** What echo prints is the literal configuration line, and nothing in the hash reaches
      the rest of the command. */
  lemma WriteCommandTokens(line: string, hash: string)
    requires HashOf(line) == Some(hash)
    ensures Tokens(StdinLine(WriteCommand(hash))) == Some(WriteTokens(hash))
  {
    hide HashOf;
    RunWriteCommand(hash);
    NotNewLineEnded(hash);
    RunConcat(START, WriteCommand(hash), "\n");
    RunLineBreak(Run(START, WriteCommand(hash)));
    WriteTokensAssembled(hash);
    FinishClosed(Run(START, StdinLine(WriteCommand(hash))));
  }

  lemma NotNewLineEnded(hash: string)
    ensures StdinLine(WriteCommand(hash)) == WriteCommand(hash) + "\n"
  {
    PasswordFileIsOrdinary();
    assert WriteCommand(hash)[|WriteCommand(hash)| - 1] == PASSWORD_FILE[|PASSWORD_FILE| - 1];
  }

  function GenerateCommand(raw: string): string {
    "/usr/bin/rspamadm " + ("pw -e -p " + (ShellQuote(raw) + " 2> /dev/null"))
  }

  function GenerateTokens(raw: string): seq<Token> {
    [ Word("/usr/bin/rspamadm", false), Word("pw", false), Word("-e", false), Word("-p", false), Word(raw, true),
      IoNumber("2"), Operator(">"), Word("/dev/null", false), NewLine
    ]
  }

  lemma RunArguments(s: Lexer)
    requires s.mode == Plain && s.pending == NoToken
    ensures Run(s, "pw -e -p ") == s.(tokens := s.tokens + [Word("pw", false), Word("-e", false), Word("-p", false)])
  {
    var ph := Then(Bare("pw"), Then(Bare("-e"), Then(Bare("-p"), End)));
    assert PhraseTokens(ph) == [Word("pw", false), Word("-e", false), Word("-p", false)];
    assert PhraseText(ph) == "pw -e -p ";
    RunPhrase(s, ph);
  }

  lemma DiscardStderrText()
    ensures " 2> /dev/null" == " " + (("2" + (">" + " ")) + "/dev/null")
  {
  }

  lemma FileDescriptor()
    ensures WellFormed(Ended("2", ">")) && PieceText(Ended("2", ">")) == "2" + (">" + " ")
    ensures PieceTokens(Ended("2", ">")) == [IoNumber("2"), Operator(">")]
    ensures AllOrdinary("/dev/null")
  {
  }

  lemma RunDiscardStderr(s: Lexer)
    requires s.mode == Plain
    ensures Run(s, " 2> /dev/null")
         == Lexer(Plain, InWord("/dev/null", false), Delimit(s, ' ').tokens + [IoNumber("2"), Operator(">")])
  {
    hide Run, WellFormed, AllOrdinary, PieceText, PieceTokens;
    var redirect := "2" + (">" + " ");
    DiscardStderrText();
    FileDescriptor();
    RunConcat(s, " ", redirect + "/dev/null");
    RunBlank(s);
    var s1 := Delimit(s, ' ');
    RunConcat(s1, redirect, "/dev/null");
    RunPiece(s1, Ended("2", ">"));
    RunOrdinary(Run(s1, redirect), "/dev/null");
  }

  lemma GenerateTokensAssembled(raw: string)
    ensures [] + [Word("/usr/bin/rspamadm", false)]
              + [Word("pw", false), Word("-e", false), Word("-p", false)] + [Word(raw, true)]
              + [IoNumber("2"), Operator(">")] + [Word("/dev/null", false)] + [NewLine]
         == GenerateTokens(raw)
  {
  }

  lemma RunGenerateCommand(raw: string)
    requires NulFree(raw)
    ensures Run(START, GenerateCommand(raw))
         == Lexer(Plain, InWord("/dev/null", false), [] + [Word("/usr/bin/rspamadm", false)]
              + [Word("pw", false), Word("-e", false), Word("-p", false)] + [Word(raw, true)]
              + [IoNumber("2"), Operator(">")])
  {
    hide Run, ShellQuote;
    var arguments, discard := "pw -e -p ", " 2> /dev/null";
    RunConcat(START, "/usr/bin/rspamadm ", arguments + (ShellQuote(raw) + discard));
    assert "/usr/bin/rspamadm " == "/usr/bin/rspamadm" + " ";
    RunWord(START, "/usr/bin/rspamadm");
    var s1 := Run(START, "/usr/bin/rspamadm ");
    RunConcat(s1, arguments, ShellQuote(raw) + discard);
    RunArguments(s1);
    var s2 := Run(s1, arguments);
    RunConcat(s2, ShellQuote(raw), discard);
    RunQuoted(s2, raw);
    RunDiscardStderr(Extend(s2, raw, true));
  }

  /** The password is one quoted word and only stderr is discarded. */
  lemma GenerateCommandTokens(raw: string)
    ensures Tokens(StdinLine(GenerateCommand(raw))) == if NulFree(raw) then Some(GenerateTokens(raw)) else None
  {
    var c := GenerateCommand(raw);
    assert c[|c| - 1] == " 2> /dev/null"[12];
    assert StdinLine(c) == c + "\n";
    if NulFree(raw) {
      RunGenerateCommand(raw);
      RunConcat(START, c, "\n");
      RunLineBreak(Run(START, c));
      GenerateTokensAssembled(raw);
      FinishClosed(Run(START, StdinLine(c)));
    } else {
      QuoteKeepsNul(raw);
      NulFreeConcat(ShellQuote(raw), " 2> /dev/null");
      NulFreeConcat("pw -e -p ", ShellQuote(raw) + " 2> /dev/null");
      NulFreeConcat("/usr/bin/rspamadm ", "pw -e -p " + (ShellQuote(raw) + " 2> /dev/null"));
      NulFreeConcat(c, "\n");
      NulRefused(START, c + "\n");
    }
  }
}
