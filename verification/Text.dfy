/** The string functions the service relies on, each with what it promises rather than
    how it searches. Characters are Unicode code points. */
module Text {
  import opened Options

  // ---- Searching ----

  predicate OccursAt(s: string, sub: string, i: nat) {
    i + |sub| <= |s| && s[i..i + |sub|] == sub
  }

  /** The first position at or after `from` where `sub` occurs. */
  function IndexFrom(s: string, sub: string, from: nat): (r: Option<nat>)
    requires from <= |s|
    ensures r.Some? ==> from <= r.value && OccursAt(s, sub, r.value)
    ensures r.Some? ==> forall j: nat | from <= j < r.value :: !OccursAt(s, sub, j)
    ensures r.None? ==> forall j: nat | from <= j :: !OccursAt(s, sub, j)
    decreases |s| - from
  {
    if OccursAt(s, sub, from) then Some(from)
    else if from == |s| then None
    else IndexFrom(s, sub, from + 1)
  }

  function Index(s: string, sub: string): (r: Option<nat>)
    ensures r.Some? ==> OccursAt(s, sub, r.value) && forall j: nat | j < r.value :: !OccursAt(s, sub, j)
    ensures r.None? ==> forall j: nat :: !OccursAt(s, sub, j)
  {
    IndexFrom(s, sub, 0)
  }

  predicate Contains(s: string, sub: string) {
    Index(s, sub).Some?
  }

  lemma FirstIndex(s: string, sub: string, i: nat)
    requires OccursAt(s, sub, i)
    requires forall j: nat | j < i :: !OccursAt(s, sub, j)
    ensures Index(s, sub) == Some(i)
  {
  }

  /** The text before and after the first separator. */
  datatype CutResult = CutResult(before: string, after: string, found: bool)

  function Cut(s: string, sep: string): (r: CutResult)
    ensures r.found ==> s == r.before + sep + r.after
    ensures !r.found ==> r.before == s && r.after == "" && !Contains(s, sep)
  {
    match Index(s, sep)
    case None => CutResult(s, "", false)
    case Some(i) => CutResult(s[..i], s[i + |sep|..], true)
  }

  // ---- Splitting ----

  function Split(s: string, sep: char): (parts: seq<string>)
    ensures |parts| >= 1
    ensures forall p | p in parts :: sep !in p
  {
    if s == "" then [""]
    else
      var rest := Split(s[1..], sep);
      if s[0] == sep then [""] + rest else [[s[0]] + rest[0]] + rest[1..]
  }

  function Join(parts: seq<string>, sep: char): string
    requires |parts| >= 1
  {
    if |parts| == 1 then parts[0] else parts[0] + [sep] + Join(parts[1..], sep)
  }

  lemma {:induction false} JoinSplit(s: string, sep: char)
    ensures Join(Split(s, sep), sep) == s
  {
    if s != "" {
      JoinSplit(s[1..], sep);
      var rest := Split(s[1..], sep);
      if s[0] == sep {
        assert ([""] + rest)[1..] == rest;
      } else {
        assert ([[s[0]] + rest[0]] + rest[1..])[1..] == rest[1..];
      }
    }
  }

  lemma {:induction false} SplitFree(s: string, sep: char)
    requires sep !in s
    ensures Split(s, sep) == [s]
  {
    if s != "" {
      SplitFree(s[1..], sep);
      assert [s[0]] + s[1..] == s;
    }
  }

  lemma {:induction false} SplitAt(a: string, sep: char, b: string)
    requires sep !in a
    ensures Split(a + [sep] + b, sep) == [a] + Split(b, sep)
  {
    var s := a + [sep] + b;
    if a == "" {
      assert s[1..] == b;
    } else {
      SplitAt(a[1..], sep, b);
      assert s[1..] == a[1..] + [sep] + b;
      assert ([a[1..]] + Split(b, sep))[1..] == Split(b, sep);
      assert [s[0]] + a[1..] == a;
    }
  }

  // ---- Space ----

  /** The white space of Go's unicode.IsSpace. */
  predicate IsSpace(c: char) {
    || '\t' <= c <= '\r' || c == ' ' || c == '\U{85}' || c == '\U{A0}'
    || c == '\U{1680}' || '\U{2000}' <= c <= '\U{200A}' || c == '\U{2028}' || c == '\U{2029}'
    || c == '\U{202F}' || c == '\U{205F}' || c == '\U{3000}'
  }

  /** The same as a list of code points. */
  lemma SpaceSpelled(c: char)
    ensures IsSpace(c)
       <==> (c as int) in [0x09, 0x0A, 0x0B, 0x0C, 0x0D, 0x20, 0x85, 0xA0, 0x1680,
                           0x2000, 0x2001, 0x2002, 0x2003, 0x2004, 0x2005, 0x2006, 0x2007, 0x2008, 0x2009, 0x200A,
                           0x2028, 0x2029, 0x202F, 0x205F, 0x3000]
  {
  }

  function TrimLeft(s: string, drop: char -> bool): (r: string)
    ensures |r| <= |s| && r == s[|s| - |r|..]
    ensures r != "" ==> !drop(r[0])
    ensures forall i | 0 <= i < |s| - |r| :: drop(s[i])
  {
    if s != "" && drop(s[0]) then TrimLeft(s[1..], drop) else s
  }

  function TrimRight(s: string, drop: char -> bool): (r: string)
    ensures r <= s
    ensures r != "" ==> !drop(r[|r| - 1])
    ensures forall i | |r| <= i < |s| :: drop(s[i])
  {
    if s != "" && drop(s[|s| - 1]) then TrimRight(s[..|s| - 1], drop) else s
  }

  function TrimSpace(s: string): string {
    TrimRight(TrimLeft(s, IsSpace), IsSpace)
  }

  lemma {:induction false} TrimLeftSkips(lead: string, s: string, drop: char -> bool)
    requires forall c | c in lead :: drop(c)
    requires s != "" ==> !drop(s[0])
    ensures TrimLeft(lead + s, drop) == s
  {
    if lead == "" {
      assert lead + s == s;
    } else {
      assert (lead + s)[0] == lead[0] && (lead + s)[1..] == lead[1..] + s;
      TrimLeftSkips(lead[1..], s, drop);
    }
  }

  lemma {:induction false} TrimRightSkips(s: string, trail: string, drop: char -> bool)
    requires forall c | c in trail :: drop(c)
    requires s != "" ==> !drop(s[|s| - 1])
    ensures TrimRight(s + trail, drop) == s
    decreases |trail|
  {
    if trail == "" {
      assert s + trail == s;
    } else {
      var n := |trail| - 1;
      assert (s + trail)[|s + trail| - 1] == trail[n] && (s + trail)[..|s + trail| - 1] == s + trail[..n];
      TrimRightSkips(s, trail[..n], drop);
    }
  }

  predicate SpaceFree(s: string) {
    forall c | c in s :: !IsSpace(c)
  }

  predicate AllSpace(s: string) {
    forall c | c in s :: IsSpace(c)
  }

  /** White space around a text is trimmed off, white space within it stays. */
  lemma TrimSpaceBetween(lead: string, s: string, trail: string)
    requires AllSpace(lead) && AllSpace(trail)
    requires s != "" && !IsSpace(s[0]) && !IsSpace(s[|s| - 1])
    ensures TrimSpace(lead + (s + trail)) == s
  {
    TrimLeftSkips(lead, s + trail, IsSpace);
    TrimRightSkips(s, trail, IsSpace);
  }

  lemma TrimSpaceAround(lead: string, s: string, trail: string)
    requires AllSpace(lead) && AllSpace(trail) && SpaceFree(s) && s != ""
    ensures TrimSpace(lead + (s + trail)) == s
  {
    assert s[0] in s && s[|s| - 1] in s;
    TrimSpaceBetween(lead, s, trail);
  }

  /** The maximal runs of characters that are not white space. */
  function Fields(s: string): (fields: seq<string>)
    ensures forall f | f in fields :: f != "" && forall c | c in f :: !IsSpace(c)
    decreases |s|
  {
    var t := TrimLeft(s, IsSpace);
    if t == "" then []
    else
      var n := FieldLength(t);
      [t[..n]] + Fields(t[n..])
  }

  function FieldLength(s: string): (n: nat)
    ensures n <= |s|
    ensures forall i | 0 <= i < n :: !IsSpace(s[i])
    ensures n < |s| ==> IsSpace(s[n])
  {
    if s == "" || IsSpace(s[0]) then 0 else 1 + FieldLength(s[1..])
  }

  lemma FieldLengthIs(s: string, n: nat)
    requires n <= |s| && (forall i | 0 <= i < n :: !IsSpace(s[i])) && (n < |s| ==> IsSpace(s[n]))
    ensures FieldLength(s) == n
  {
  }

  /** White space in front is skipped, the first run of other characters is the first field,
      and what lies behind the white space after it is left to the other fields. */
  lemma FieldsCons(lead: string, f: string, gap: string, rest: string)
    requires AllSpace(lead) && AllSpace(gap) && SpaceFree(f) && f != "" && (gap == "" ==> rest == "")
    ensures Fields(lead + (f + (gap + rest))) == [f] + Fields(rest)
  {
    hide TrimLeft, FieldLength;
    var t := f + (gap + rest);
    assert forall i | 0 <= i < |f| :: t[i] == f[i] && f[i] in f;
    TrimLeftSkips(lead, t, IsSpace);
    if gap != "" {
      assert t[|f|] == gap[0] && gap[0] in gap;
    } else {
      assert gap + rest == "" && t == f;
    }
    FieldLengthIs(t, |f|);
    assert t[..|f|] == f && t[|f|..] == gap + rest;
    FieldsSkip(gap, rest);
  }

  lemma {:induction false} TrimLeftOver(lead: string, s: string)
    requires AllSpace(lead)
    ensures TrimLeft(lead + s, IsSpace) == TrimLeft(s, IsSpace)
  {
    if lead == "" {
      assert lead + s == s;
    } else {
      assert (lead + s)[0] == lead[0] && lead[0] in lead && (lead + s)[1..] == lead[1..] + s;
      TrimLeftOver(lead[1..], s);
    }
  }

  lemma FieldsSkip(gap: string, rest: string)
    requires AllSpace(gap)
    ensures Fields(gap + rest) == Fields(rest)
  {
    hide TrimLeft, FieldLength, IsSpace;
    TrimLeftOver(gap, rest);
  }

  lemma FieldsOfSpace(s: string)
    requires AllSpace(s)
    ensures Fields(s) == []
  {
    TrimLeftSkips(s, "", IsSpace);
    assert s + "" == s;
  }

  /** Words with the white space behind each; only the last word may have none. */
  predicate Spacing(words: seq<string>, gaps: seq<string>) {
    && |gaps| == |words|
    && (forall w | w in words :: w != "" && SpaceFree(w))
    && (forall i | 0 <= i < |gaps| :: AllSpace(gaps[i]) && (i + 1 < |gaps| ==> gaps[i] != ""))
  }

  function Spaced(words: seq<string>, gaps: seq<string>): string
    requires |gaps| == |words|
  {
    if words == [] then "" else words[0] + (gaps[0] + Spaced(words[1..], gaps[1..]))
  }

  /** Splitting into fields undoes writing words with white space between them. */
  lemma {:induction false} FieldsOfSpaced(words: seq<string>, gaps: seq<string>)
    requires Spacing(words, gaps)
    ensures Fields(Spaced(words, gaps)) == words
  {
    hide Fields, AllSpace, SpaceFree;
    if words == [] {
      NoFields();
    } else {
      var rest := Spaced(words[1..], gaps[1..]);
      FieldsOfSpaced(words[1..], gaps[1..]);
      NothingInFront();
      FieldsCons("", words[0], gaps[0], rest);
      assert "" + (words[0] + (gaps[0] + rest)) == words[0] + (gaps[0] + rest);
    }
  }

  lemma NoFields()
    ensures Fields("") == []
  {
  }

  lemma NothingInFront()
    ensures AllSpace("")
  {
  }
}
