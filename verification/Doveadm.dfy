/** The ACL aggregation of doveadm__get_acl (internal/actions/doveadm.go). */
module Doveadm {
  import opened Options
  import opened Sequences
  import opened Text

  datatype ACL = ACL(user: string, id: string, mailbox: string, rights: seq<string>)

  datatype AclEntry = AclEntry(userID: string, rights: seq<string>)

  /** The output of `doveadm acl get -u user mailbox`; None when the command failed. */
  type Answers = (string, string) -> Option<string>

  // ---- One line of `doveadm acl get` ----

  predicate IsFieldSpace(c: char) {
    '\t' <= c <= '\r' || c == ' '
  }

  predicate AllFieldSpace(s: string) {
    forall c | c in s :: IsFieldSpace(c)
  }

  /** The length of the leading run of characters that are not white space. */
  function WordLength(s: string): (n: nat)
    ensures n <= |s|
    ensures forall i | 0 <= i < n :: !IsFieldSpace(s[i])
    ensures n < |s| ==> IsFieldSpace(s[n])
  {
    if s == "" || IsFieldSpace(s[0]) then 0 else 1 + WordLength(s[1..])
  }

  datatype FirstField = FirstField(first: string, rest: string)

  function SplitFirstField(line: string): Option<FirstField> {
    var s := TrimLeft(line, IsFieldSpace);
    var idx := WordLength(s);
    if idx == |s| then None else Some(FirstField(s[..idx], TrimLeft(s[idx..], IsFieldSpace)))
  }

  /** The first field is the first run of other characters; white space in front of it is
      skipped and the white space behind it is one separator, which must be present. */
  lemma SplitFirstFieldMeaning(lead: string, first: string, gap: string, rest: string)
    requires AllFieldSpace(lead) && AllFieldSpace(gap) && gap != ""
    requires first != "" && forall c | c in first :: !IsFieldSpace(c)
    requires rest != "" ==> !IsFieldSpace(rest[0])
    ensures SplitFirstField(lead + (first + (gap + rest))) == Some(FirstField(first, rest))
    ensures SplitFirstField(lead + first) == None
  {
    hide TrimLeft, WordLength;
    var tail := first + (gap + rest);
    FieldSpaceSkipped(lead, tail);
    assert tail[|first|..] == gap + rest;
    assert tail[|first|] == gap[0] && gap[0] in gap;
    WordLengthIs(tail, |first|);
    assert tail[..|first|] == first;
    FieldSpaceSkipped(gap, rest);
    FieldSpaceSkipped(lead, first);
    WordLengthIs(first, |first|);
  }

  lemma FieldSpaceSkipped(space: string, s: string)
    requires AllFieldSpace(space)
    requires s != "" ==> !IsFieldSpace(s[0])
    ensures TrimLeft(space + s, IsFieldSpace) == s
  {
    TrimLeftSkips(space, s, IsFieldSpace);
  }

  lemma WordLengthIs(s: string, n: nat)
    requires n <= |s| && forall i | 0 <= i < n :: !IsFieldSpace(s[i])
    requires n < |s| ==> IsFieldSpace(s[n])
    ensures WordLength(s) == n
  {
  }

  function ParseLine(line: string): Option<AclEntry> {
    match SplitFirstField(line)
    case None => None
    case Some(f) =>
      var c := Cut(f.first, "=");
      if c.found then Some(AclEntry(c.after, Fields(f.rest))) else None
  }

  function ParseLines(lines: seq<string>): seq<AclEntry> {
    if lines == [] then []
    else
      var before := ParseLines(lines[..|lines| - 1]);
      match ParseLine(lines[|lines| - 1])
      case None => before
      case Some(e) => before + [e]
  }

  /** A line of an answer: key=user in front, the rights behind it. The key goes, the user
      may hold further equals signs, the rights are the fields of the rest. */
  lemma ParseLineMeaning(lead: string, key: string, user: string, gap: string, rest: string)
    requires AllFieldSpace(lead) && AllFieldSpace(gap) && gap != ""
    requires '=' !in key && forall c | c in key + user :: !IsFieldSpace(c)
    requires rest != "" ==> !IsFieldSpace(rest[0])
    ensures ParseLine(lead + ((key + ("=" + user)) + (gap + rest))) == Some(AclEntry(user, Fields(rest)))
  {
    hide SplitFirstField, Fields, Cut, AllFieldSpace;
    var first := key + ("=" + user);
    SplitFirstFieldMeaning(lead, first, gap, rest);
    CutAtEquals(key, user);
  }

  /** The same with the rights spelled out: words with white space between them, each of
      which becomes one right, in order. */
  lemma ParseLineRights(
    lead: string, key: string, user: string, gap: string, rights: seq<string>, gaps: seq<string>)
    requires AllFieldSpace(lead) && AllFieldSpace(gap) && gap != ""
    requires '=' !in key && forall c | c in key + user :: !IsFieldSpace(c)
    requires Spacing(rights, gaps)
    ensures ParseLine(lead + ((key + ("=" + user)) + (gap + Spaced(rights, gaps)))) == Some(AclEntry(user, rights))
  {
    hide ParseLine, Fields, AllFieldSpace;
    SpacedStart(rights, gaps);
    ParseLineMeaning(lead, key, user, gap, Spaced(rights, gaps));
    FieldsOfSpaced(rights, gaps);
  }

  lemma SpacedStart(words: seq<string>, gaps: seq<string>)
    requires Spacing(words, gaps)
    ensures Spaced(words, gaps) != "" ==> !IsFieldSpace(Spaced(words, gaps)[0])
  {
    if words != [] {
      assert words[0] in words && words[0][0] in words[0];
      assert Spaced(words, gaps)[0] == words[0][0];
    }
  }

  /** The characters that separate the first field, spelled out. */
  lemma FieldSpaceSpelled(c: char)
    ensures IsFieldSpace(c) <==> c in " \t\n\r\U{0B}\U{0C}"
  {
  }

  /** A line without an equals sign in its first field, or with that field alone, has none. */
  lemma ParseLineNothing(lead: string, first: string, gap: string, rest: string)
    requires AllFieldSpace(lead) && AllFieldSpace(gap) && gap != ""
    requires first != "" && forall c | c in first :: !IsFieldSpace(c)
    requires rest != "" ==> !IsFieldSpace(rest[0])
    ensures '=' !in first ==> ParseLine(lead + (first + (gap + rest))) == None
    ensures ParseLine(lead + first) == None
  {
    hide SplitFirstField, Fields, Cut, AllFieldSpace;
    SplitFirstFieldMeaning(lead, first, gap, rest);
    if '=' !in first {
      NoEquals(first);
    }
  }

  lemma CutAtEquals(key: string, user: string)
    requires '=' !in key
    ensures Cut(key + ("=" + user), "=") == CutResult(key, user, true)
  {
    var s := key + ("=" + user);
    assert s[|key|..|key| + 1] == "=";
    forall j: nat | j < |key| ensures !OccursAt(s, "=", j) {
      assert s[j..j + 1][0] == key[j];
    }
    FirstIndex(s, "=", |key|);
    assert s[..|key|] == key && s[|key| + 1..] == user;
  }

  lemma NoEquals(s: string)
    requires '=' !in s
    ensures !Cut(s, "=").found
  {
    forall j: nat ensures !OccursAt(s, "=", j) {
      if j < |s| {
        assert s[j..j + 1][0] == s[j];
      }
    }
  }

  /** Every line is parsed on its own: an unusable one takes nothing else with it. */
  lemma {:induction false} ParseLinesConcat(a: seq<string>, b: seq<string>)
    ensures ParseLines(a + b) == ParseLines(a) + ParseLines(b)
  {
    hide ParseLine;
    if b == [] {
      assert a + b == a;
    } else {
      var n := |b| - 1;
      assert (a + b)[..|a + b| - 1] == a + b[..n] && (a + b)[|a + b| - 1] == b[n];
      ParseLinesConcat(a, b[..n]);
      if ParseLine(b[n]).Some? {
        Reassociate(ParseLines(a), ParseLines(b[..n]), [ParseLine(b[n]).value]);
      }
    }
  }

  /** The entries in an answer: the first line is a column header. */
  function Entries(answer: Option<string>): seq<AclEntry> {
    match answer
    case None => []
    case Some(output) => ParseLines(Split(TrimSpace(output), '\n')[1..])
  }

  /** The header goes, and only the header; an answer of one line has no entries. */
  lemma EntriesSkipHeader(output: string, header: string, body: string)
    requires '\n' !in header
    ensures TrimSpace(output) == header + ['\n'] + body ==> Entries(Some(output)) == ParseLines(Split(body, '\n'))
    ensures TrimSpace(output) == header ==> Entries(Some(output)) == []
  {
    hide TrimSpace, Split, ParseLine;
    SplitAt(header, '\n', body);
    SplitFree(header, '\n');
    assert ([header] + Split(body, '\n'))[1..] == Split(body, '\n');
  }

  method AclEntries(answers: Answers, user: string, mailbox: string) returns (entries: seq<AclEntry>)
    ensures entries == Entries(answers(user, mailbox))
  {
    hide TrimSpace, Split, Fields, SplitFirstField, Cut;
    var res := answers(user, mailbox);
    if res.None? {
      return [];
    }
    var lines := Split(TrimSpace(res.value), '\n');
    if |lines| < 2 {
      return [];
    }
    entries := [];
    for i := 1 to |lines|
      invariant entries == ParseLines(lines[1..i])
    {
      assert lines[1..i + 1][..i - 1] == lines[1..i];
      var f := SplitFirstField(lines[i]);
      if f.None? {
        continue;
      }
      var c := Cut(f.value.first, "=");
      if !c.found {
        continue;
      }
      entries := entries + [AclEntry(c.after, Fields(f.value.rest))];
    }
    assert lines[1..|lines|] == lines[1..];
  }

  // ---- What a folder line stands for ----

  /** The mailbox a line is about and the user who owns it. */
  datatype Folder = Folder(owner: string, mailbox: string, own: bool)

  function FolderOf(line: string, id: string): Option<Folder> {
    if !Contains(line, "Shared") then Some(Folder(id, line, true))
    else
      var parts := Split(line, '/');
      if |parts| < 3 then None else Some(Folder(parts[1], Join(parts[2..], '/'), false))
  }

  /** A shared line root/owner/path is about the owner's mailbox `path`, which keeps its own
      slashes; without a path it stands for nothing. */
  lemma SharedFolderMeaning(root: string, owner: string, path: string, id: string)
    requires '/' !in root && '/' !in owner
    ensures Contains(root + ['/'] + (owner + ['/'] + path), "Shared") ==>
              FolderOf(root + ['/'] + (owner + ['/'] + path), id) == Some(Folder(owner, path, false))
    ensures Contains(root + ['/'] + owner, "Shared") ==> FolderOf(root + ['/'] + owner, id) == None
    ensures Contains(root, "Shared") ==> FolderOf(root, id) == None
  {
    hide Contains, Split, Join;
    SplitAt(root, '/', owner + ['/'] + path);
    SplitAt(owner, '/', path);
    var parts := [root] + ([owner] + Split(path, '/'));
    assert parts[2..] == Split(path, '/');
    JoinSplit(path, '/');
    SplitAt(root, '/', owner);
    SplitFree(owner, '/');
    SplitFree(root, '/');
  }

  /** All entries of a mailbox, as they appear in the response. */
  function OwnACLs(id: string, mailbox: string, entries: seq<AclEntry>): (acls: seq<ACL>)
    ensures |acls| == |entries|
  {
    seq(|entries|, i requires 0 <= i < |entries| => ACL(id, entries[i].userID, mailbox, entries[i].rights))
  }

  /** The position of the first entry that names a user, or the number of entries. */
  function FirstFor(id: string, entries: seq<AclEntry>): (k: nat)
    ensures k <= |entries|
    ensures forall i | 0 <= i < k :: entries[i].userID != id
    ensures k < |entries| ==> entries[k].userID == id
  {
    if entries == [] || entries[0].userID == id then 0 else 1 + FirstFor(id, entries[1..])
  }

  /** What a folder would add if its mailbox had not been answered before: every entry of
      an own folder, the first entry naming the requested user of a shared one. */
  function Yield(f: Folder, id: string, answers: Answers): seq<ACL> {
    var entries := Entries(answers(f.owner, f.mailbox));
    if f.own then OwnACLs(id, f.mailbox, entries)
    else
      var k := FirstFor(id, entries);
      if k < |entries| then [ACL(f.owner, id, f.mailbox, entries[k].rights)] else []
  }

  /** Line j is about the mailbox and yields something. */
  predicate Answered(lines: seq<string>, j: nat, mailbox: string, id: string, answers: Answers)
    requires j < |lines|
  {
    var f := FolderOf(lines[j], id);
    f.Some? && f.value.mailbox == mailbox && Yield(f.value, id, answers) != []
  }

  predicate Taken(lines: seq<string>, n: nat, mailbox: string, id: string, answers: Answers)
    requires n <= |lines|
  {
    exists j: nat :: j < n && Answered(lines, j, mailbox, id, answers)
  }

  /** Line i adds what it yields unless an earlier line with the same mailbox yields something. */
  function Contribution(lines: seq<string>, i: nat, id: string, answers: Answers): seq<ACL>
    requires i < |lines|
  {
    match FolderOf(lines[i], id)
    case None => []
    case Some(f) => if Taken(lines, i, f.mailbox, id, answers) then [] else Yield(f, id, answers)
  }

  /** The declarative form of the response: the contributions in listing order. */
  function Response(lines: seq<string>, n: nat, id: string, answers: Answers): seq<ACL>
    requires n <= |lines|
  {
    if n == 0 then [] else Response(lines, n - 1, id, answers) + Contribution(lines, n - 1, id, answers)
  }

  /** What an own line says: one element for each entry of the user's mailbox of that name,
      in order, with the user as its owner and the entry's own user as its id. */
  lemma OwnLineElements(line: string, id: string, answers: Answers, k: nat)
    requires !Contains(line, "Shared")
    ensures var entries := Entries(answers(id, line));
            && FolderOf(line, id).Some?
            && var y := Yield(FolderOf(line, id).value, id, answers);
               && |y| == |entries|
               && (k < |y| ==> y[k].user == id && y[k].id == entries[k].userID && y[k].mailbox == line
                               && y[k].rights == entries[k].rights)
  {
    hide Entries, Contains;
  }

  /** What a shared line root/owner/path says: at most one element, with the owner as its
      owner, the user as its id, and the rights of the first entry that names the user. */
  lemma SharedLineElement(root: string, owner: string, path: string, id: string, answers: Answers, k: nat)
    requires '/' !in root && '/' !in owner && Contains(root + ['/'] + (owner + ['/'] + path), "Shared")
    ensures var entries := Entries(answers(owner, path));
            var f := FolderOf(root + ['/'] + (owner + ['/'] + path), id);
            && f.Some?
            && ((forall e | e in entries :: e.userID != id) ==> Yield(f.value, id, answers) == [])
            && (k < |entries| && entries[k].userID == id && (forall i | 0 <= i < k :: entries[i].userID != id) ==>
                  var y := Yield(f.value, id, answers);
                  && |y| == 1 && y[0].user == owner && y[0].id == id && y[0].mailbox == path
                  && y[0].rights == entries[k].rights)
  {
    hide Entries, Contains, FolderOf;
    SharedFolderMeaning(root, owner, path, id);
  }

  // ---- The two loops ----

  /** The map the handlers share. */
  class Seen {
    var names: set<string>

    constructor ()
      ensures names == {}
    {
      names := {};
    }
  }

  method AppendOwnACLs(answers: Answers, id: string, mailbox: string, seen: Seen, acc: seq<ACL>)
    returns (formatted: seq<ACL>)
    modifies seen
    ensures formatted
         == acc + (if mailbox in old(seen.names) then [] else Yield(Folder(id, mailbox, true), id, answers))
    ensures seen.names
         == old(seen.names) + (if Yield(Folder(id, mailbox, true), id, answers) == [] then {} else {mailbox})
  {
    hide Entries;
    formatted := acc;
    if mailbox in seen.names {
      return;
    }
    var entries := AclEntries(answers, id, mailbox);
    ghost var y := OwnACLs(id, mailbox, entries);
    for i := 0 to |entries|
      invariant formatted == acc + y[..i]
      invariant seen.names == if i == 0 then old(seen.names) else old(seen.names) + {mailbox}
    {
      assert y[..i + 1] == y[..i] + [y[i]];
      seen.names := seen.names + {mailbox};
      formatted := formatted + [ACL(id, entries[i].userID, mailbox, entries[i].rights)];
    }
    assert y[..|entries|] == y;
  }

  /** `folder` has the form "Shared/owner/path". */
  method AppendSharedACLs(answers: Answers, id: string, folder: string, seen: Seen, acc: seq<ACL>)
    returns (formatted: seq<ACL>)
    requires Contains(folder, "Shared")
    modifies seen
    ensures var f := FolderOf(folder, id);
            && formatted
               == acc + (if f.None? || f.value.mailbox in old(seen.names) then [] else Yield(f.value, id, answers))
            && seen.names
               == old(seen.names)
                  + (if f.None? || Yield(f.value, id, answers) == [] then {} else {f.value.mailbox})
  {
    hide Entries, Split, Join, Contains;
    formatted := acc;
    var parts := Split(folder, '/');
    if |parts| < 3 {
      return;
    }
    var owner := parts[1];
    var mailbox := Join(parts[2..], '/');
    if mailbox in seen.names {
      return;
    }
    var entries := AclEntries(answers, owner, mailbox);
    ghost var k := FirstFor(id, entries);
    for i := 0 to |entries|
      invariant i <= k ==> formatted == acc && seen.names == old(seen.names)
      invariant i > k ==> formatted == acc + [ACL(owner, id, mailbox, entries[k].rights)]
      invariant i > k ==> seen.names == old(seen.names) + {mailbox}
    {
      if entries[i].userID != id || mailbox in seen.names {
        continue;
      }
      seen.names := seen.names + {mailbox};
      formatted := formatted + [ACL(owner, id, mailbox, entries[i].rights)];
    }
  }

  lemma NothingTakenAtStart(lines: seq<string>, id: string, answers: Answers)
    ensures forall m :: !Taken(lines, 0, m, id, answers)
  {
  }

  /** What the two handlers do for line i, given what the lines before it did. */
  lemma TakenStep(lines: seq<string>, n: nat, names: set<string>, id: string, answers: Answers)
    requires n < |lines|
    requires forall m :: m in names <==> Taken(lines, n, m, id, answers)
    ensures var f := FolderOf(lines[n], id);
            var after := names + (if f.None? || Yield(f.value, id, answers) == [] then {} else {f.value.mailbox});
            && (forall m :: m in after <==> Taken(lines, n + 1, m, id, answers))
            && Contribution(lines, n, id, answers)
               == (if f.None? || f.value.mailbox in names then [] else Yield(f.value, id, answers))
  {
    var f := FolderOf(lines[n], id);
    var after := names + (if f.None? || Yield(f.value, id, answers) == [] then {} else {f.value.mailbox});
    forall m ensures m in after <==> Taken(lines, n + 1, m, id, answers) {
      if m in names {
        var j: nat :| j < n && Answered(lines, j, m, id, answers);
        assert j < n + 1;
      }
      if m in after && m !in names {
        assert Answered(lines, n, m, id, answers);
      }
    }
  }

  /** The body of DoveadmGetACL behind the request checks: the response, or None when the
      mailboxes cannot be listed. */
  method GetACL(listing: Option<string>, answers: Answers, id: string) returns (response: Option<seq<ACL>>)
    ensures response.Some? <==> listing.Some?
    ensures listing.Some? ==>
              var lines := Split(listing.value, '\n');
              response.value == Response(lines, |lines|, id, answers)
  {
    hide Contains, Split, Yield, Entries, Contribution, Taken;
    if listing.None? {
      return None;
    }
    var lines := Split(listing.value, '\n');
    var formatted: seq<ACL> := [];
    var seen := new Seen();
    NothingTakenAtStart(lines, id, answers);
    for i := 0 to |lines|
      invariant fresh(seen)
      invariant formatted == Response(lines, i, id, answers)
      invariant forall m :: m in seen.names <==> Taken(lines, i, m, id, answers)
    {
      TakenStep(lines, i, seen.names, id, answers);
      var folder := lines[i];
      if !Contains(folder, "Shared") {
        formatted := AppendOwnACLs(answers, id, folder, seen, formatted);
        continue;
      }
      if Contains(folder, "/") {
        formatted := AppendSharedACLs(answers, id, folder, seen, formatted);
      } else {
        NoSlash(folder);
      }
    }
    return Some(formatted);
  }

  lemma NoSlash(folder: string)
    requires !Contains(folder, "/")
    ensures Split(folder, '/') == [folder]
  {
    if '/' in folder {
      var i :| 0 <= i < |folder| && folder[i] == '/';
      assert OccursAt(folder, "/", i);
    }
    SplitFree(folder, '/');
  }

  // ---- What the response contains ----

  /** No mailbox is answered twice, whoever lists it. */
  lemma MailboxAnsweredOnce(lines: seq<string>, i: nat, j: nat, id: string, answers: Answers)
    requires i < j < |lines|
    requires Contribution(lines, i, id, answers) != [] && Contribution(lines, j, id, answers) != []
    ensures FolderOf(lines[i], id).value.mailbox != FolderOf(lines[j], id).value.mailbox
  {
    var m := FolderOf(lines[i], id).value.mailbox;
    assert Answered(lines, i, m, id, answers);
  }

  /** A mailbox for which some line has an answer is answered by the first such line. */
  lemma {:induction false} FirstAnswerWins(lines: seq<string>, i: nat, id: string, answers: Answers) returns (j: nat)
    requires i < |lines| && FolderOf(lines[i], id).Some? && Yield(FolderOf(lines[i], id).value, id, answers) != []
    ensures j <= i && Answered(lines, j, FolderOf(lines[i], id).value.mailbox, id, answers)
    ensures Contribution(lines, j, id, answers) == Yield(FolderOf(lines[j], id).value, id, answers)
    ensures forall k: nat | k < j :: !Answered(lines, k, FolderOf(lines[i], id).value.mailbox, id, answers)
    decreases i
  {
    var m := FolderOf(lines[i], id).value.mailbox;
    if Taken(lines, i, m, id, answers) {
      var k: nat :| k < i && Answered(lines, k, m, id, answers);
      j := FirstAnswerWins(lines, k, id, answers);
    } else {
      j := i;
      assert Answered(lines, i, m, id, answers);
    }
  }

  /** Every element of the response belongs to exactly the line that contributes it. */
  lemma {:induction false} ResponseIsContributions(lines: seq<string>, n: nat, a: ACL, id: string, answers: Answers)
    requires n <= |lines|
    ensures a in Response(lines, n, id, answers) <==> exists i: nat :: i < n && a in Contribution(lines, i, id, answers)
  {
    hide Contribution;
    if n > 0 {
      ResponseIsContributions(lines, n - 1, a, id, answers);
    }
  }
}
