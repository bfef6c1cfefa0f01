/** The writer that turns net/http's handshake errors into records
    (internal/peers/errorlog.go). */
module ErrorLog {
  import opened Options
  import opened Peers
  import opened PeerRuns
  import opened Sequences
  import opened Text

  const HANDSHAKE_PREFIX := "http: TLS handshake error from "

  datatype Level = Debug | Warn

  datatype Attr = Attr(key: string, value: string)

  datatype Record = Record(level: Level, message: string, attrs: seq<Attr>)

  const PROBED := "a peer connected and closed without starting a TLS handshake"
  const FAILED := "the TLS handshake failed"

  // ---- Taking a line apart ----

  datatype Handshake = Handshake(addr: string, reason: string)

  function CutHandshake(line: string): Option<Handshake> {
    var c := Cut(line, HANDSHAKE_PREFIX);
    if !c.found then None
    else
      var r := Cut(c.after, ": ");
      Some(Handshake(r.before, r.after))
  }

  predicate HasSuffix(s: string, suffix: string) {
    |suffix| <= |s| && s[|s| - |suffix|..] == suffix
  }

  predicate IsProbe(reason: string) {
    reason == "EOF" || HasSuffix(reason, "connection reset by peer") || HasSuffix(reason, "broken pipe")
  }

  /** How net/http prints a failed handshake. */
  function HandshakeLine(addr: string, reason: string): string {
    HANDSHAKE_PREFIX + (addr + (": " + reason))
  }

  lemma CutAt(before: string, sep: string, after: string)
    requires forall j: nat | j < |before| :: !OccursAt(before + (sep + after), sep, j)
    ensures Cut(before + (sep + after), sep) == CutResult(before, after, true)
  {
    var s := before + (sep + after);
    assert s[|before|..|before| + |sep|] == sep;
    FirstIndex(s, sep, |before|);
    assert s[..|before|] == before && s[|before| + |sep|..] == after;
  }

  lemma CutPrefix(rest: string)
    ensures Cut(HANDSHAKE_PREFIX + rest, HANDSHAKE_PREFIX) == CutResult("", rest, true)
  {
    CutAt("", HANDSHAKE_PREFIX, rest);
    assert "" + (HANDSHAKE_PREFIX + rest) == HANDSHAKE_PREFIX + rest;
  }

  /** A separator that an address does not contain cannot start within it. */
  lemma NoEarlySeparator(addr: string, tail: string, j: nat)
    requires !Contains(addr, ": ") && tail != "" && tail[0] == ':' && j < |addr|
    ensures !OccursAt(addr + tail, ": ", j)
  {
    var s := addr + tail;
    assert !OccursAt(addr, ": ", j);
    if j + 1 < |addr| {
      assert addr[j..j + 2] == s[j..j + 2];
    } else {
      assert s[j..j + 2][1] == ':';
    }
  }

  /** Address and reason come back from any printed line whose address has no ": " in it. */
  lemma CutRecovers(addr: string, reason: string)
    requires !Contains(addr, ": ")
    ensures CutHandshake(HandshakeLine(addr, reason)) == Some(Handshake(addr, reason))
  {
    CutPrefix(addr + (": " + reason));
    forall j: nat | j < |addr| ensures !OccursAt(addr + (": " + reason), ": ", j) {
      NoEarlySeparator(addr, ": " + reason, j);
    }
    CutAt(addr, ": ", reason);
  }

  /** The same with the line spelled out. */
  lemma PrintedLine(addr: string, reason: string)
    requires !Contains(addr, ": ")
    ensures CutHandshake("http: TLS handshake error from " + (addr + (": " + reason))) == Some(Handshake(addr, reason))
  {
    hide CutHandshake;
    CutRecovers(addr, reason);
  }

  /** In full: text in front of the first prefix is dropped, the address ends at the first
      separator, without a separator all is address, and without a prefix there is nothing. */
  lemma CutAnywhere(before: string, addr: string, reason: string)
    requires !Contains(addr, ": ")
    ensures (forall j: nat | j < |before| ::
               !OccursAt(before + (HANDSHAKE_PREFIX + (addr + (": " + reason))), HANDSHAKE_PREFIX, j)) ==>
              CutHandshake(before + HandshakeLine(addr, reason)) == Some(Handshake(addr, reason))
    ensures (forall j: nat | j < |before| :: !OccursAt(before + (HANDSHAKE_PREFIX + addr), HANDSHAKE_PREFIX, j)) ==>
              CutHandshake(before + (HANDSHAKE_PREFIX + addr)) == Some(Handshake(addr, ""))
    ensures !Contains(before, HANDSHAKE_PREFIX) ==> CutHandshake(before) == None
  {
    hide Contains;
    CutRecovers(addr, reason);
    var tail := addr + (": " + reason);
    CutPrefix(tail);
    if forall j: nat | j < |before| :: !OccursAt(before + (HANDSHAKE_PREFIX + tail), HANDSHAKE_PREFIX, j) {
      CutAt(before, HANDSHAKE_PREFIX, tail);
    }
    if forall j: nat | j < |before| :: !OccursAt(before + (HANDSHAKE_PREFIX + addr), HANDSHAKE_PREFIX, j) {
      CutAt(before, HANDSHAKE_PREFIX, addr);
      NotFound(addr, ": ");
    }
    NotFound(before, HANDSHAKE_PREFIX);
  }

  lemma NotFound(s: string, sep: string)
    ensures !Contains(s, sep) ==> Cut(s, sep) == CutResult(s, "", false)
  {
  }

  // ---- Trimming before taking apart ----

  lemma {:induction false} TrimRightKeeps(a: string, b: string)
    requires a != "" && !IsSpace(a[|a| - 1])
    ensures TrimRight(a + b, IsSpace) == a + TrimRight(b, IsSpace)
    decreases |b|
  {
    if b == "" {
      assert a + b == a;
    } else {
      assert (a + b)[..|a + b| - 1] == a + b[..|b| - 1];
      if IsSpace(b[|b| - 1]) {
        TrimRightKeeps(a, b[..|b| - 1]);
      }
    }
  }

  lemma TrimSpaceKeeps(a: string, b: string)
    requires a != "" && !IsSpace(a[0]) && !IsSpace(a[|a| - 1])
    ensures TrimSpace(a + b) == a + TrimRight(b, IsSpace)
  {
    TrimRightKeeps(a, b);
    assert TrimLeft(a + b, IsSpace) == a + b;
  }

  lemma TrimmedAfterColon(start: string, reason: string)
    requires start != "" && !IsSpace(start[0])
    ensures TrimSpace(start + (": " + reason)) ==
            if TrimRight(reason, IsSpace) != "" then start + (": " + TrimRight(reason, IsSpace)) else start + ":"
  {
    hide TrimLeft, TrimRight, TrimSpace;
    var kept := TrimRight(reason, IsSpace);
    assert ": " + reason == ":" + (" " + reason) && ": " + kept == ":" + (" " + kept);
    Reassociate(start, ":", " " + reason);
    Reassociate(start, ":", " " + kept);
    TrimSpaceKeeps(start + ":", " " + reason);
    TrimBlank(reason);
    assert (start + ":") + "" == start + ":";
  }

  /** What Write hands on for a printed line: the line without the white space at its end,
      which takes the separator's blank along when the reason is nothing but white space. */
  lemma TrimmedLine(addr: string, reason: string)
    ensures TrimSpace(HandshakeLine(addr, reason)) ==
            if TrimRight(reason, IsSpace) != "" then HandshakeLine(addr, TrimRight(reason, IsSpace))
            else HANDSHAKE_PREFIX + (addr + ":")
  {
    hide TrimLeft, TrimRight, TrimSpace;
    Reassociate(HANDSHAKE_PREFIX, addr, ": " + reason);
    Reassociate(HANDSHAKE_PREFIX, addr, ": " + TrimRight(reason, IsSpace));
    Reassociate(HANDSHAKE_PREFIX, addr, ":");
    assert HANDSHAKE_PREFIX[0] == 'h';
    TrimmedAfterColon(HANDSHAKE_PREFIX + addr, reason);
  }

  lemma {:induction false} TrimBlank(reason: string)
    ensures TrimRight(" " + reason, IsSpace)
         == if TrimRight(reason, IsSpace) == "" then "" else " " + TrimRight(reason, IsSpace)
    decreases |reason|
  {
    var s := " " + reason;
    if reason == "" {
      assert s[..|s| - 1] == "";
    } else {
      assert s[..|s| - 1] == " " + reason[..|reason| - 1];
      assert s[|s| - 1] == reason[|reason| - 1];
      if IsSpace(reason[|reason| - 1]) {
        TrimBlank(reason[..|reason| - 1]);
      }
    }
  }

  /** Through Write, which trims first, address and reason are recovered exactly when the
      reason is more than white space; otherwise the separator's colon stays on the address. */
  lemma WrittenLineRecovers(addr: string, reason: string)
    requires !Contains(addr, ": ")
    ensures CutHandshake(TrimSpace(HandshakeLine(addr, reason))) ==
            if TrimRight(reason, IsSpace) != "" then Some(Handshake(addr, TrimRight(reason, IsSpace)))
            else Some(Handshake(addr + ":", ""))
  {
    TrimmedLine(addr, reason);
    if TrimRight(reason, IsSpace) != "" {
      CutRecovers(addr, TrimRight(reason, IsSpace));
    } else {
      CutPrefix(addr + ":");
      NoSeparator(addr);
    }
  }

  lemma NoSeparator(addr: string)
    requires !Contains(addr, ": ")
    ensures !Contains(addr + ":", ": ")
  {
    if Contains(addr + ":", ": ") {
      var j := Index(addr + ":", ": ").value;
      NoEarlySeparator(addr, ":", j);
    }
  }

  lemma RecoveryIff(addr: string, reason: string)
    requires !Contains(addr, ": ")
    ensures CutHandshake(TrimSpace(HandshakeLine(addr, reason))) == Some(Handshake(addr, TrimRight(reason, IsSpace)))
       <==> TrimRight(reason, IsSpace) != ""
  {
    WrittenLineRecovers(addr, reason);
    assert |addr + ":"| != |addr|;
  }

  lemma BlankFree(s: string)
    requires ' ' !in s
    ensures !Contains(s, ": ")
  {
    forall j: nat ensures !OccursAt(s, ": ", j) {
      if j + 2 <= |s| {
        assert s[j..j + 2][1] == s[j + 1];
      }
    }
  }

  /** A line for which it fails: an error whose text is empty. */
  lemma EmptyReasonLost()
    ensures CutHandshake(TrimSpace(HandshakeLine("192.0.2.1:443", ""))) == Some(Handshake("192.0.2.1:443" + ":", ""))
  {
    hide CutHandshake, HandshakeLine, TrimSpace;
    assert ' ' !in "192.0.2.1:443";
    BlankFree("192.0.2.1:443");
    WrittenLineRecovers("192.0.2.1:443", "");
  }

  // ---- The record ----

  function Optional(key: string, value: string): seq<Attr> {
    if value != "" then [Attr(key, value)] else []
  }

  /** One attribute for each field of the peer that has a value, in a fixed order. */
  function PeerAttrs(p: Peer): seq<Attr> {
    Optional("peer_ip", p.ip) + Optional("peer_port", p.port) + Optional("peer_container", p.container)
    + Optional("peer_service", p.service) + Optional("peer_network", p.network) + Optional("peer_hostname", p.hostname)
  }

  function HandshakeRecord(h: Handshake, p: Peer): Record {
    var attrs := [Attr("err", h.reason)] + (if p.ip == "" then [Attr("peer_addr", h.addr)] else []) + PeerAttrs(p);
    if IsProbe(h.reason) then Record(Debug, PROBED, attrs) else Record(Warn, FAILED, attrs)
  }

  /** A handshake is a mere probe if its reason is EOF or ends as a lost connection's does. */
  lemma ProbeSpelled(reason: string)
    ensures IsProbe(reason)
       <==> || reason == "EOF"
            || (exists start: string :: reason == start + "connection reset by peer")
            || (exists start: string :: reason == start + "broken pipe")
  {
    hide IsProbe;
    SuffixSpelled(reason, "connection reset by peer");
    SuffixSpelled(reason, "broken pipe");
    assert IsProbe(reason) <==> reason == "EOF" || HasSuffix(reason, "connection reset by peer")
                                || HasSuffix(reason, "broken pipe") by {
      ProbeCases(reason);
    }
  }

  lemma ProbeCases(reason: string)
    ensures IsProbe(reason) <==> reason == "EOF" || HasSuffix(reason, "connection reset by peer")
                                 || HasSuffix(reason, "broken pipe")
  {
  }

  lemma SuffixSpelled(s: string, suffix: string)
    ensures HasSuffix(s, suffix) <==> exists start: string :: s == start + suffix
  {
    if HasSuffix(s, suffix) {
      assert s == s[..|s| - |suffix|] + suffix;
    }
  }

  lemma OptionalSpelled(key: string, value: string, a: Attr)
    ensures a in Optional(key, value) <==> value != "" && a == Attr(key, value)
  {
  }

  lemma PeerAttrsSpelled(p: Peer, a: Attr)
    ensures a in PeerAttrs(p)
       <==> && a.value != ""
            && (|| a == Attr("peer_ip", p.ip) || a == Attr("peer_port", p.port)
                || a == Attr("peer_container", p.container) || a == Attr("peer_service", p.service)
                || a == Attr("peer_network", p.network) || a == Attr("peer_hostname", p.hostname))
  {
    hide Optional;
    OptionalSpelled("peer_ip", p.ip, a);
    OptionalSpelled("peer_port", p.port, a);
    OptionalSpelled("peer_container", p.container, a);
    OptionalSpelled("peer_service", p.service, a);
    OptionalSpelled("peer_network", p.network, a);
    OptionalSpelled("peer_hostname", p.hostname, a);
  }

  /** What reaches the record: probes are debug, all else is a warning; the reason, each part
      of the peer that has a value under its own key, and the raw text if no peer was found. */
  lemma RecordSpelled(h: Handshake, p: Peer, a: Attr)
    ensures var r := HandshakeRecord(h, p);
            && (r.level == Debug <==> IsProbe(h.reason))
            && r.message == (if IsProbe(h.reason) then "a peer connected and closed without starting a TLS handshake"
                             else "the TLS handshake failed")
            && (a in r.attrs
                <==> || a == Attr("err", h.reason)
                     || (p.ip == "" && a == Attr("peer_addr", h.addr))
                     || (&& a.value != ""
                         && (|| a == Attr("peer_ip", p.ip) || a == Attr("peer_port", p.port)
                             || a == Attr("peer_container", p.container) || a == Attr("peer_service", p.service)
                             || a == Attr("peer_network", p.network) || a == Attr("peer_hostname", p.hostname))))
  {
    hide IsProbe, PeerAttrs;
    PeerAttrsSpelled(p, a);
  }

  class ErrorWriter {
    const resolver: Resolver
    var log: seq<Record>

    constructor (resolver: Resolver)
      ensures this.resolver == resolver && log == []
    {
      this.resolver, log := resolver, [];
    }

    /** Write: trims the line and reports it. `at` is the clock of the lookup it may cause. */
    method Write(text: string, at: Call, src: Sources, ghost w: World)
      requires w.ttl == resolver.ttl && w.isIP == resolver.isIP && src == w.sources(at.checked)
      modifies this`log, resolver
      ensures var line := TrimSpace(text);
              match CutHandshake(line)
              case None => log == (if line == "" then old(log) else old(log) + [Record(Warn, line, [])])
                           && resolver.entries == old(resolver.entries)
              case Some(h) =>
                log == old(log) + [HandshakeRecord(h, Answer(w, old(resolver.entries), at.(addr := h.addr)))]
                && resolver.entries == After(w, old(resolver.entries), at.(addr := h.addr))
    {
      hide CutHandshake, TrimSpace, Answer, After;
      Report(TrimSpace(text), at, src, w);
    }

    method Report(line: string, at: Call, src: Sources, ghost w: World)
      requires w.ttl == resolver.ttl && w.isIP == resolver.isIP && src == w.sources(at.checked)
      modifies this`log, resolver
      ensures match CutHandshake(line)
              case None => log == (if line == "" then old(log) else old(log) + [Record(Warn, line, [])])
                           && resolver.entries == old(resolver.entries)
              case Some(h) =>
                log == old(log) + [HandshakeRecord(h, Answer(w, old(resolver.entries), at.(addr := h.addr)))]
                && resolver.entries == After(w, old(resolver.entries), at.(addr := h.addr))
    {
      hide CutHandshake, Answer, After, IsProbe;
      if line == "" {
        EmptyLine();
        return;
      }
      var cut := CutHandshake(line);
      if cut.None? {
        log := log + [Record(Warn, line, [])];
        return;
      }
      var h := cut.value;
      var peer := resolver.Lookup(at.(addr := h.addr), src, w);
      var attrs := [Attr("err", h.reason)];
      if peer.ip == "" {
        attrs := attrs + [Attr("peer_addr", h.addr)];
      } else {
        assert attrs + [] == attrs;
      }
      attrs := attrs + PeerAttrs(peer);
      if IsProbe(h.reason) {
        log := log + [Record(Debug, PROBED, attrs)];
        return;
      }
      log := log + [Record(Warn, FAILED, attrs)];
    }
  }

  lemma EmptyLine()
    ensures CutHandshake("") == None
  {
    assert |HANDSHAKE_PREFIX| == 31;
  }

  /** A record carries the reason and names the peer by address and port, or by the raw
      text it was given. */
  predicate NamesPeer(attrs: seq<Attr>, h: Handshake, hp: HostPort) {
    && Attr("err", h.reason) in attrs
    && (hp.host == "" ==> Attr("peer_addr", h.addr) in attrs)
    && (hp.host != "" ==> Attr("peer_ip", hp.host) in attrs)
    && (hp.port != "" ==> Attr("peer_port", hp.port) in attrs)
  }

  /** Every record made in a run of lookups identifies its connection. */
  lemma RecordsNamePeers(w: World, calls: seq<Call>, n: nat, h: Handshake)
    requires n < |calls| && calls[n].addr == h.addr
    ensures NamesPeer(HandshakeRecord(h, Answer(w, CacheAt(w, calls, n), calls[n])).attrs, h, SplitAddr(h.addr, w.isIP))
  {
    hide Answer, SplitAddr, CacheAt, IsProbe;
    AnswerIdentity(w, calls, n);
  }

  /** The address of a connection, printed by net/http, is split back into its parts. */
  lemma PrintedAddress(ip: string, port: string, isIP: string -> bool)
    requires isIP(ip) && ip != "" && Unbracketed(ip) && SpaceFree(ip)
    requires Unbracketed(port) && ':' !in port && SpaceFree(port)
    ensures SplitAddr(JoinHostPort(ip, port), isIP) == HostPort(ip, port)
    ensures !Contains(JoinHostPort(ip, port), ": ")
  {
    hide SplitAddr;
    var s := JoinHostPort(ip, port);
    SplitAddrPrinted("", ip, port, "", isIP);
    assert "" + (s + "") == s;
    PrintedHasNoSeparator(ip, port);
  }

  /** From the printed line to the record: a failed handshake of a connection from ip and
      port is recorded with that ip, that port and the reason. */
  lemma ConnectionIsNamed(w: World, calls: seq<Call>, n: nat, ip: string, port: string, reason: string)
    requires n < |calls| && calls[n].addr == JoinHostPort(ip, port)
    requires w.isIP(ip) && ip != "" && Unbracketed(ip) && SpaceFree(ip)
    requires port != "" && Unbracketed(port) && ':' !in port && SpaceFree(port)
    requires TrimRight(reason, IsSpace) != ""
    ensures var cut := CutHandshake(TrimSpace(HandshakeLine(JoinHostPort(ip, port), reason)));
            && cut == Some(Handshake(JoinHostPort(ip, port), TrimRight(reason, IsSpace)))
            && var attrs := HandshakeRecord(cut.value, Answer(w, CacheAt(w, calls, n), calls[n])).attrs;
               && Attr("peer_ip", ip) in attrs && Attr("peer_port", port) in attrs
               && Attr("err", TrimRight(reason, IsSpace)) in attrs
  {
    hide Answer, SplitAddr, CacheAt, IsProbe, TrimSpace, TrimRight;
    hide CutHandshake, HandshakeLine, JoinHostPort, HandshakeRecord, Contains;
    PrintedAddress(ip, port, w.isIP);
    WrittenLineRecovers(JoinHostPort(ip, port), reason);
    RecordsNamePeers(w, calls, n, Handshake(JoinHostPort(ip, port), TrimRight(reason, IsSpace)));
  }

  /** With a blank reason the address is lost: the text that is looked up ends in a colon,
      no peer is found, and the record has nothing but that text. */
  lemma ConnectionIsLost(w: World, calls: seq<Call>, n: nat, ip: string, port: string, reason: string)
    requires n < |calls| && calls[n].addr == JoinHostPort(ip, port) + ":"
    requires Unbracketed(ip) && SpaceFree(ip) && Unbracketed(port) && ':' !in port && SpaceFree(port)
    requires !w.isIP(JoinHostPort(ip, port) + ":")
    requires TrimRight(reason, IsSpace) == ""
    ensures var text := JoinHostPort(ip, port) + ":";
            var cut := CutHandshake(TrimSpace(HandshakeLine(JoinHostPort(ip, port), reason)));
            && cut == Some(Handshake(text, ""))
            && Answer(w, CacheAt(w, calls, n), calls[n]) == NO_PEER
            && HandshakeRecord(cut.value, NO_PEER) == Record(Warn, FAILED, [Attr("err", ""), Attr("peer_addr", text)])
  {
    hide TrimSpace, TrimRight, CutHandshake, HandshakeLine, JoinHostPort, Contains, SplitHostPort, CacheAt;
    var text := JoinHostPort(ip, port) + ":";
    PrintedHasNoSeparator(ip, port);
    WrittenLineRecovers(JoinHostPort(ip, port), reason);
    ColonAfterPort(ip, port);
    JoinIsSpaceFree(ip, port);
    TrimSpaceAround("", text, "");
    assert "" + (text + "") == text;
  }

  lemma PrintedHasNoSeparator(ip: string, port: string)
    requires SpaceFree(ip) && SpaceFree(port)
    ensures !Contains(JoinHostPort(ip, port), ": ")
  {
    JoinIsSpaceFree(ip, port);
    assert ' ' !in JoinHostPort(ip, port);
    BlankFree(JoinHostPort(ip, port));
  }

  /** The text that is looked up for a failed handshake of a connection. */
  function LookedUp(ip: string, port: string, reason: string): string {
    match CutHandshake(TrimSpace(HandshakeLine(JoinHostPort(ip, port), reason)))
    case None => ""
    case Some(h) => h.addr
  }

  /** So a record names its connection if and only if the reason is more than white space. */
  lemma ConnectionIsNamedIff(w: World, calls: seq<Call>, n: nat, ip: string, port: string, reason: string)
    requires n < |calls| && calls[n].addr == LookedUp(ip, port, reason)
    requires w.isIP(ip) && ip != "" && Unbracketed(ip) && SpaceFree(ip)
    requires port != "" && Unbracketed(port) && ':' !in port && SpaceFree(port)
    requires !w.isIP(JoinHostPort(ip, port) + ":")
    ensures var cut := CutHandshake(TrimSpace(HandshakeLine(JoinHostPort(ip, port), reason)));
            && cut.Some?
            && var attrs := HandshakeRecord(cut.value, Answer(w, CacheAt(w, calls, n), calls[n])).attrs;
               Attr("peer_ip", ip) in attrs && Attr("peer_port", port) in attrs <==> TrimRight(reason, IsSpace) != ""
  {
    hide Answer, SplitAddr, CacheAt, IsProbe, TrimSpace, TrimRight;
    hide CutHandshake, HandshakeLine, JoinHostPort, HandshakeRecord, Contains;
    PrintedHasNoSeparator(ip, port);
    WrittenLineRecovers(JoinHostPort(ip, port), reason);
    if TrimRight(reason, IsSpace) != "" {
      ConnectionIsNamed(w, calls, n, ip, port, reason);
    } else {
      ConnectionIsLost(w, calls, n, ip, port, reason);
    }
  }
}
