/** Addresses, the two sources that know their owners, and the resolver with its cache
    (internal/peers/peers.go). */
module Peers {
  import opened Options
  import opened Sequences
  import opened Text

  const LABEL_SERVICE := "com.docker.compose.service"

  const DEFAULT_TTL: int := 30 * 1_000_000_000

  datatype Peer = Peer(ip: string, port: string, container: string, service: string, network: string, hostname: string)

  const NO_PEER := Peer("", "", "", "", "", "")

  datatype Endpoint = Endpoint(network: string, ips: seq<string>)

  datatype Container = Container(names: seq<string>, labels: map<string, string>, endpoints: seq<Endpoint>)

  // ---- Addresses ----

  datatype HostPort = HostPort(host: string, port: string)

  function LastColon(s: string): (r: Option<nat>)
    ensures r.Some? ==> r.value < |s| && s[r.value] == ':' && ':' !in s[r.value + 1..]
    ensures r.None? ==> ':' !in s
  {
    if s == "" then None
    else if s[|s| - 1] == ':' then Some(|s| - 1)
    else LastColon(s[..|s| - 1])
  }

  function FirstBracket(s: string): (r: Option<nat>)
    ensures r.Some? ==> r.value < |s| && s[r.value] == ']' && ']' !in s[..r.value]
    ensures r.None? ==> ']' !in s
  {
    if s == "" then None
    else if s[0] == ']' then Some(0)
    else match FirstBracket(s[1..])
      case None => None
      case Some(i) => Some(i + 1)
  }

  /** The standard library's splitting of host:port and [host]:port. */
  function SplitHostPort(s: string): Option<HostPort> {
    match LastColon(s)
    case None => None
    case Some(i) =>
      if s[0] == '[' then
        match FirstBracket(s)
        case None => None
        case Some(end) =>
          if end + 1 != i || '[' in s[1..] || ']' in s[end + 1..] then None
          else Some(HostPort(s[1..end], s[i + 1..]))
      else if ':' in s[..i] || '[' in s || ']' in s then None
      else Some(HostPort(s[..i], s[i + 1..]))
  }

  /** How net/http spells a remote address. */
  function JoinHostPort(host: string, port: string): string {
    if ':' in host then "[" + host + "]:" + port else host + ":" + port
  }

  predicate Unbracketed(s: string) {
    '[' !in s && ']' !in s
  }

  /** What is printed for an address is split back into it. */
  lemma SplitJoinHostPort(host: string, port: string)
    requires Unbracketed(host) && Unbracketed(port) && ':' !in port
    ensures SplitHostPort(JoinHostPort(host, port)) == Some(HostPort(host, port))
  {
    if ':' in host {
      SplitBracketed(host, port);
    } else {
      var s := host + ":" + port;
      assert s[..|host|] == host && s[|host| + 1..] == port;
      LastColonIs(s, |host|);
    }
  }

  lemma SplitBracketed(host: string, port: string)
    requires Unbracketed(host) && Unbracketed(port) && ':' !in port
    ensures SplitHostPort("[" + host + "]:" + port) == Some(HostPort(host, port))
  {
    hide LastColon, FirstBracket;
    var s := "[" + host + "]:" + port;
    var n := |host|;
    assert s[..n + 1] == "[" + host;
    assert s[1..n + 1] == host;
    assert s[1..] == host + ("]:" + port);
    assert s[n + 2..] == ":" + port;
    assert s[n + 3..] == port;
    LastColonIs(s, n + 2);
    FirstBracketIs(s, n + 1);
  }

  lemma LastColonIs(s: string, i: nat)
    requires i < |s| && s[i] == ':' && ':' !in s[i + 1..]
    ensures LastColon(s) == Some(i)
  {
  }

  lemma FirstBracketIs(s: string, i: nat)
    requires i < |s| && s[i] == ']' && ']' !in s[..i]
    ensures FirstBracket(s) == Some(i)
  {
  }

  /** splitAddr; `isIP` tells which texts parse as an IP address. An empty host means that
      the text names no address. */
  function SplitAddr(addr: string, isIP: string -> bool): (r: HostPort)
    ensures r.host == "" ==> r.port == ""
    ensures r.host != "" ==> isIP(r.host)
  {
    var s := TrimSpace(addr);
    var hp := match SplitHostPort(s)
              case None => HostPort(s, "")
              case Some(split) => split;
    if s == "" || hp.host == "" || !isIP(hp.host) then HostPort("", "") else hp
  }

  lemma SplitHostPortInverse(s: string)
    ensures match SplitHostPort(s)
            case None => true
            case Some(hp) => s == hp.host + ":" + hp.port || s == "[" + hp.host + "]:" + hp.port
  {
    var i := LastColon(s);
    if SplitHostPort(s).Some? {
      assert s == s[..i.value] + ":" + s[i.value + 1..];
      if s[0] == '[' {
        var end := FirstBracket(s).value;
        assert s[..i.value] == "[" + s[1..end] + "]";
      }
    }
  }

  lemma SplitPlain(host: string, port: string)
    requires Unbracketed(host) && Unbracketed(port) && ':' !in host && ':' !in port
    ensures SplitHostPort(host + ":" + port) == Some(HostPort(host, port))
  {
    hide SplitHostPort;
    SplitJoinHostPort(host, port);
  }

  lemma SplitHostPortClean(s: string)
    requires SplitHostPort(s).Some?
    ensures var hp := SplitHostPort(s).value;
            && Unbracketed(hp.host) && Unbracketed(hp.port) && ':' !in hp.port
            && (s == hp.host + ":" + hp.port && ':' in hp.host ==> s == "[" + hp.host + "]:" + hp.port)
  {
    SplitHostPortInverse(s);
  }

  /** Exactly the two spellings split, host:port for a host without colons and [host]:port,
      with brackets nowhere else. */
  lemma SplitHostPortIff(s: string, host: string, port: string)
    ensures SplitHostPort(s) == Some(HostPort(host, port))
       <==> && Unbracketed(host) && Unbracketed(port) && ':' !in port
            && (s == "[" + host + "]:" + port || (':' !in host && s == host + ":" + port))
  {
    hide SplitHostPort;
    if SplitHostPort(s) == Some(HostPort(host, port)) {
      SplitHostPortInverse(s);
      SplitHostPortClean(s);
    }
    if Unbracketed(host) && Unbracketed(port) && ':' !in port {
      SplitBracketed(host, port);
      if ':' !in host {
        SplitPlain(host, port);
      }
    }
  }

  /** What comes back is what was there: the text is the host alone, or host and port in one
      of the two spellings. */
  lemma SplitAddrInverse(addr: string, isIP: string -> bool)
    requires SplitAddr(addr, isIP).host != ""
    ensures var s, hp := TrimSpace(addr), SplitAddr(addr, isIP);
            || (s == hp.host && hp.port == "")
            || s == hp.host + ":" + hp.port
            || s == "[" + hp.host + "]:" + hp.port
  {
    hide TrimSpace, SplitHostPort;
    SplitHostPortInverse(TrimSpace(addr));
  }

  lemma JoinIsSpaceFree(host: string, port: string)
    requires SpaceFree(host) && SpaceFree(port)
    ensures SpaceFree(JoinHostPort(host, port)) && JoinHostPort(host, port) != ""
  {
  }

  /** A printed address, with white space around it or not: host and port come back if the
      host is an IP address, and nothing otherwise. */
  lemma SplitAddrPrinted(lead: string, ip: string, port: string, trail: string, isIP: string -> bool)
    requires AllSpace(lead) && AllSpace(trail) && ip != ""
    requires Unbracketed(ip) && SpaceFree(ip) && Unbracketed(port) && ':' !in port && SpaceFree(port)
    ensures SplitAddr(lead + (JoinHostPort(ip, port) + trail), isIP)
         == if isIP(ip) then HostPort(ip, port) else HostPort("", "")
  {
    hide TrimSpace, SplitHostPort, JoinHostPort, SpaceFree, AllSpace;
    JoinIsSpaceFree(ip, port);
    TrimSpaceAround(lead, JoinHostPort(ip, port), trail);
    SplitJoinHostPort(ip, port);
  }

  /** A text without a port is kept as a bare address if it is an IP address: one without
      a colon, or with more than one outside brackets. */
  lemma SplitAddrBare(lead: string, ip: string, trail: string, isIP: string -> bool)
    requires AllSpace(lead) && AllSpace(trail) && ip != "" && Unbracketed(ip) && SpaceFree(ip)
    requires var i := LastColon(ip); i.Some? ==> ':' in ip[..i.value]
    ensures SplitAddr(lead + (ip + trail), isIP) == if isIP(ip) then HostPort(ip, "") else HostPort("", "")
  {
    hide TrimSpace, SpaceFree, AllSpace;
    TrimSpaceAround(lead, ip, trail);
    assert SplitHostPort(ip) == None by {
      assert ip[0] != '[';
    }
  }

  /** A colon after the port leaves no port to split off. */
  lemma ColonAfterPort(host: string, port: string)
    requires Unbracketed(host) && Unbracketed(port)
    ensures SplitHostPort(JoinHostPort(host, port) + ":") == None
  {
    var t := JoinHostPort(host, port);
    var s := t + ":";
    LastColonIs(s, |t|);
    if ':' in host {
      assert t == ("[" + host) + "]:" + port && t[|host| + 1] == ']';
      assert s[1..|host| + 1] == host && s[..|host| + 1] == "[" + host;
      FirstBracketIs(s, |host| + 1);
    } else {
      assert t[|host|] == ':' && s[..|t|] == t && s[0] != '[';
    }
  }

  // ---- The two sources ----

  datatype Listing = NoDocker | ListFailed | Listed(containers: seq<Container>)

  /** What the container listing and the DNS resolver answer; None is a DNS error. */
  datatype Sources = Sources(listing: Listing, dns: string -> Option<seq<string>>)

  function TrimPrefix(s: string, c: char): string {
    if s != "" && s[0] == c then s[1..] else s
  }

  function TrimSuffix(s: string, c: char): string {
    if s != "" && s[|s| - 1] == c then s[..|s| - 1] else s
  }

  function ContainerName(c: Container): string {
    if c.names == [] then "" else TrimPrefix(c.names[0], '/')
  }

  function ContainerPeer(c: Container, ep: Endpoint, ip: string): Peer {
    Peer(ip, "", ContainerName(c), if LABEL_SERVICE in c.labels then c.labels[LABEL_SERVICE] else "", ep.network, "")
  }

  /** Every address in a listing with the container it belongs to, in listing order. */
  function OnEndpoint(c: Container, ep: Endpoint): (ps: seq<Peer>)
    ensures |ps| == |ep.ips|
  {
    seq(|ep.ips|, i requires 0 <= i < |ep.ips| => ContainerPeer(c, ep, ep.ips[i]))
  }

  function OnContainer(c: Container, n: nat): seq<Peer>
    requires n <= |c.endpoints|
  {
    if n == 0 then [] else OnContainer(c, n - 1) + OnEndpoint(c, c.endpoints[n - 1])
  }

  function Attachments(list: seq<Container>, n: nat): seq<Peer>
    requires n <= |list|
  {
    if n == 0 then [] else Attachments(list, n - 1) + OnContainer(list[n - 1], |list[n - 1].endpoints|)
  }

  /** The mapping from address to peer in which the last mention of an address counts. */
  function LastMention(ps: seq<Peer>): (m: map<string, Peer>)
    ensures forall a | a in m :: m[a].ip == a && m[a] in ps
    ensures forall p | p in ps :: p.ip in m
  {
    if ps == [] then map[] else LastMention(ps[..|ps| - 1])[ps[|ps| - 1].ip := ps[|ps| - 1]]
  }

  lemma LastMentionSnoc(ps: seq<Peer>, p: Peer)
    ensures LastMention(ps + [p]) == LastMention(ps)[p.ip := p]
  {
    assert (ps + [p])[..|ps|] == ps;
  }

  function Found(src: Sources): map<string, Peer> {
    match src.listing
    case Listed(list) => LastMention(Attachments(list, |list|))
    case _ => map[]
  }

  function FromDNS(src: Sources, ip: string): Peer {
    match src.dns(ip)
    case None => NO_PEER.(ip := ip)
    case Some(names) => NO_PEER.(ip := ip, hostname := if names == [] then "" else TrimSuffix(names[0], '.'))
  }

  /** The resolver without a cache: the listing first, DNS second. */
  function Resolved(src: Sources, ip: string): Peer {
    if ip in Found(src) then Found(src)[ip] else FromDNS(src, ip)
  }

  // ---- What the sources say about an address ----

  lemma UpdateMerged(m: map<string, Peer>, n: map<string, Peer>, a: string, p: Peer)
    ensures (m + n)[a := p] == m + n[a := p]
  {
  }

  lemma {:induction false} LastMentionConcat(ps: seq<Peer>, qs: seq<Peer>)
    ensures LastMention(ps + qs) == LastMention(ps) + LastMention(qs)
  {
    hide LastMention;
    if qs == [] {
      NoMention();
      assert ps + qs == ps;
    } else {
      var n := |qs| - 1;
      LastMentionConcat(ps, qs[..n]);
      assert qs == qs[..n] + [qs[n]];
      Reassociate(ps, qs[..n], [qs[n]]);
      LastMentionSnoc(ps + qs[..n], qs[n]);
      LastMentionSnoc(qs[..n], qs[n]);
      UpdateMerged(LastMention(ps), LastMention(qs[..n]), qs[n].ip, qs[n]);
    }
  }

  lemma OnEndpointMentions(c: Container, ep: Endpoint, a: string)
    ensures a in LastMention(OnEndpoint(c, ep)) <==> a in ep.ips
    ensures a in ep.ips ==> LastMention(OnEndpoint(c, ep))[a] == ContainerPeer(c, ep, a)
  {
    hide ContainerPeer;
    var ps := OnEndpoint(c, ep);
    if a in ep.ips {
      var i :| 0 <= i < |ep.ips| && ep.ips[i] == a;
      ContainerPeerIp(c, ep, a);
      assert ps[i] in ps;
    }
    if a in LastMention(ps) {
      var i :| 0 <= i < |ps| && ps[i] == LastMention(ps)[a];
      ContainerPeerIp(c, ep, ep.ips[i]);
    }
  }

  lemma ContainerPeerIp(c: Container, ep: Endpoint, ip: string)
    ensures ContainerPeer(c, ep, ip).ip == ip
  {
  }

  predicate OnNoEndpoint(c: Container, from: nat, a: string) {
    forall y | from <= y < |c.endpoints| :: a !in c.endpoints[y].ips
  }

  lemma {:induction false} OnContainerMentions(c: Container, n: nat, y: nat, a: string)
    requires y < n <= |c.endpoints| && a in c.endpoints[y].ips
    requires forall z | y < z < n :: a !in c.endpoints[z].ips
    ensures a in LastMention(OnContainer(c, n))
    ensures LastMention(OnContainer(c, n))[a] == ContainerPeer(c, c.endpoints[y], a)
  {
    hide LastMention, OnEndpoint, ContainerPeer;
    OnEndpointMentions(c, c.endpoints[n - 1], a);
    LastMentionConcat(OnContainer(c, n - 1), OnEndpoint(c, c.endpoints[n - 1]));
    if y < n - 1 {
      OnContainerMentions(c, n - 1, y, a);
    }
  }

  lemma {:induction false} OnContainerSilent(c: Container, n: nat, a: string)
    requires n <= |c.endpoints| && forall z | 0 <= z < n :: a !in c.endpoints[z].ips
    ensures a !in LastMention(OnContainer(c, n))
  {
    hide OnEndpoint, LastMention;
    if n == 0 {
      NoMention();
    } else {
      OnContainerSilent(c, n - 1, a);
      OnEndpointMentions(c, c.endpoints[n - 1], a);
      LastMentionConcat(OnContainer(c, n - 1), OnEndpoint(c, c.endpoints[n - 1]));
    }
  }

  /** The address is on endpoint y of container x and mentioned nowhere behind it. */
  predicate MentionedLast(list: seq<Container>, x: nat, y: nat, a: string) {
    && x < |list| && y < |list[x].endpoints| && a in list[x].endpoints[y].ips
    && OnNoEndpoint(list[x], y + 1, a)
    && forall z | x < z < |list| :: OnNoEndpoint(list[z], 0, a)
  }

  lemma {:induction false} AttachmentsMention(list: seq<Container>, n: nat, x: nat, y: nat, a: string)
    requires x < n <= |list| && MentionedLast(list, x, y, a)
    ensures a in LastMention(Attachments(list, n))
    ensures LastMention(Attachments(list, n))[a] == ContainerPeer(list[x], list[x].endpoints[y], a)
  {
    hide LastMention, OnContainer, ContainerPeer;
    var c := list[n - 1];
    LastMentionConcat(Attachments(list, n - 1), OnContainer(c, |c.endpoints|));
    if x == n - 1 {
      OnContainerMentions(c, |c.endpoints|, y, a);
    } else {
      assert OnNoEndpoint(c, 0, a);
      OnContainerSilent(c, |c.endpoints|, a);
      AttachmentsMention(list, n - 1, x, y, a);
    }
  }

  /** Who an address belongs to that the listing mentions: the container and the network of
      its last mention, the container's first name without the slash in front, and the
      service that the compose label names. */
  lemma ListedPeer(src: Sources, x: nat, y: nat, a: string)
    requires src.listing.Listed? && MentionedLast(src.listing.containers, x, y, a)
    ensures var c, p := src.listing.containers[x], Resolved(src, a);
            && p.ip == a && p.port == "" && p.hostname == "" && p.network == c.endpoints[y].network
            && (c.names == [] ==> p.container == "")
            && (c.names != [] && c.names[0] != "" && c.names[0][0] == '/' ==> "/" + p.container == c.names[0])
            && (c.names != [] && (c.names[0] == "" || c.names[0][0] != '/') ==> p.container == c.names[0])
            && p.service
               == if "com.docker.compose.service" in c.labels then c.labels["com.docker.compose.service"] else ""
  {
    hide LastMention, Attachments;
    AttachmentsMention(src.listing.containers, |src.listing.containers|, x, y, a);
  }

  /** An address that the listing mentions nowhere. */
  predicate Unlisted(src: Sources, a: string) {
    src.listing.Listed? ==>
      forall z | 0 <= z < |src.listing.containers| :: OnNoEndpoint(src.listing.containers[z], 0, a)
  }

  lemma {:induction false} AttachmentsSilent(list: seq<Container>, n: nat, a: string)
    requires n <= |list| && forall z | 0 <= z < n :: OnNoEndpoint(list[z], 0, a)
    ensures a !in LastMention(Attachments(list, n))
  {
    hide OnContainer, LastMention;
    if n == 0 {
      NoMention();
    } else {
      var c := list[n - 1];
      assert OnNoEndpoint(c, 0, a);
      AttachmentsSilent(list, n - 1, a);
      OnContainerSilent(c, |c.endpoints|, a);
      LastMentionConcat(Attachments(list, n - 1), OnContainer(c, |c.endpoints|));
    }
  }

  /** Who it belongs to otherwise: the first name in DNS without the dot at its end, and
      nothing but the address without a name or with an error. */
  lemma UnlistedPeer(src: Sources, a: string)
    requires Unlisted(src, a)
    ensures var names, p := src.dns(a), Resolved(src, a);
            && p.ip == a && p.port == "" && p.container == "" && p.service == "" && p.network == ""
            && (names.None? || names.value == [] ==> p.hostname == "")
            && (names.Some? && names.value != [] ==>
                  var name := names.value[0];
                  if name != "" && name[|name| - 1] == '.' then p.hostname + "." == name else p.hostname == name)
  {
    hide LastMention, Attachments;
    if src.listing.Listed? {
      AttachmentsSilent(src.listing.containers, |src.listing.containers|, a);
    }
  }

  // ---- The cache ----

  datatype Entry = Entry(peer: Peer, at: int)

  type Cache = map<string, Entry>

  predicate Fresh(cache: Cache, ip: string, now: int, ttl: int) {
    ip in cache && now - cache[ip].at < ttl
  }

  function StoreAll(cache: Cache, found: map<string, Peer>, at: int): Cache {
    cache + map a | a in found :: Entry(found[a], at)
  }

  lemma StoreOne(cache: Cache, found: map<string, Peer>, rest: set<string>, a: string, at: int)
    requires rest <= found.Keys && a in rest
    ensures StoreAll(cache, found - rest, at)[a := Entry(found[a], at)] == StoreAll(cache, found - (rest - {a}), at)
  {
    assert (found - (rest - {a})).Keys == (found - rest).Keys + {a};
  }

  lemma StoreNothing(cache: Cache, at: int)
    ensures StoreAll(cache, map[], at) == cache
  {
  }

  lemma NoMention()
    ensures LastMention([]) == map[]
  {
  }

  /** One lookup and the clock readings it makes: the freshness check, after which the
      sources are asked, the stores of the listing, and the store of its own answer. */
  datatype Call = Call(addr: string, checked: int, listed: int, stored: int)

  /** The surroundings of a run: the sources at every instant. */
  datatype World = World(ttl: int, isIP: string -> bool, sources: int -> Sources)

  predicate Misses(w: World, cache: Cache, c: Call) {
    var ip := SplitAddr(c.addr, w.isIP).host;
    ip != "" && !Fresh(cache, ip, c.checked, w.ttl)
  }

  /** The call makes the resolver list the containers. */
  predicate Lists(w: World, cache: Cache, c: Call) {
    Misses(w, cache, c) && !w.sources(c.checked).listing.NoDocker?
  }

  function Answer(w: World, cache: Cache, c: Call): Peer {
    var hp := SplitAddr(c.addr, w.isIP);
    if hp.host == "" then NO_PEER
    else if Fresh(cache, hp.host, c.checked, w.ttl) then cache[hp.host].peer.(port := hp.port)
    else Resolved(w.sources(c.checked), hp.host).(port := hp.port)
  }

  function After(w: World, cache: Cache, c: Call): Cache {
    if !Misses(w, cache, c) then cache
    else
      var ip := SplitAddr(c.addr, w.isIP).host;
      var src := w.sources(c.checked);
      StoreAll(cache, Found(src), c.listed)[ip := Entry(Resolved(src, ip), c.stored)]
  }

  class Resolver {
    const ttl: int
    const isIP: string -> bool
    var entries: Cache
    ghost var listings: seq<int>  // the instants at which the containers were listed

    /** A lifetime of zero or less means the default. */
    constructor (ttl: int, isIP: string -> bool)
      ensures this.ttl == (if ttl <= 0 then 30_000_000_000 else ttl) && this.isIP == isIP
      ensures this.ttl > 0 && entries == map[] && listings == []
    {
      this.ttl := if ttl <= 0 then DEFAULT_TTL else ttl;
      this.isIP, entries, listings := isIP, map[], [];
    }

    method Cached(ip: string, now: int) returns (peer: Option<Peer>)
      ensures peer == if Fresh(entries, ip, now, ttl) then Some(entries[ip].peer) else None
    {
      if ip !in entries || now - entries[ip].at >= ttl {
        return None;
      }
      return Some(entries[ip].peer);
    }

    method Store(ip: string, peer: Peer, now: int)
      modifies this`entries
      ensures entries == old(entries)[ip := Entry(peer, now)]
    {
      entries := entries[ip := Entry(peer, now)];
    }

    method FromDocker(list: seq<Container>) returns (out: map<string, Peer>)
      ensures out == LastMention(Attachments(list, |list|))
    {
      hide LastMention;
      out := map[];
      ghost var seen: seq<Peer> := [];
      NoMention();
      for i := 0 to |list|
        invariant seen == Attachments(list, i) && out == LastMention(seen)
      {
        var c := list[i];
        ghost var before := seen;
        assert before + [] == before;
        for j := 0 to |c.endpoints|
          invariant seen == before + OnContainer(c, j) && out == LastMention(seen)
        {
          var ep := c.endpoints[j];
          ghost var on := OnEndpoint(c, ep);
          ghost var reached := seen;
          for k := 0 to |ep.ips|
            invariant seen == reached + on[..k] && out == LastMention(seen)
          {
            assert on[..k + 1] == on[..k] + [on[k]];
            LastMentionSnoc(seen, on[k]);
            Reassociate(reached, on[..k], [on[k]]);
            seen := seen + [on[k]];
            out := out[ep.ips[k] := ContainerPeer(c, ep, ep.ips[k])];
          }
          assert on[..|ep.ips|] == on;
          Reassociate(before, OnContainer(c, j), on);
        }
      }
    }

    method StoreListing(found: map<string, Peer>, at: int)
      modifies this`entries
      ensures entries == StoreAll(old(entries), found, at)
    {
      hide StoreAll;
      var rest := found.Keys;
      assert found - rest == map[];
      StoreNothing(entries, at);
      while rest != {}
        invariant rest <= found.Keys
        invariant entries == StoreAll(old(entries), found - rest, at)
        decreases |rest|
      {
        var a :| a in rest;
        StoreOne(old(entries), found, rest, a, at);
        Store(a, found[a], at);
        rest := rest - {a};
      }
      assert found - rest == found;
    }

    /** Asks the listing first and DNS second; the whole listing is stored. */
    method Resolve(ip: string, src: Sources, asked: int, listed: int) returns (peer: Peer)
      modifies this
      ensures peer == Resolved(src, ip)
      ensures entries == StoreAll(old(entries), Found(src), listed)
      ensures listings == if src.listing.NoDocker? then old(listings) else old(listings) + [asked]
    {
      hide FromDNS, LastMention, Attachments;
      listings := if src.listing.NoDocker? then listings else listings + [asked];
      if src.listing.Listed? {
        var found := FromDocker(src.listing.containers);
        StoreListing(found, listed);
        if ip in found {
          return found[ip];
        }
      } else {
        StoreNothing(entries, listed);
      }
      return FromDNS(src, ip);
    }

    method Lookup(c: Call, src: Sources, ghost w: World) returns (peer: Peer)
      requires w.ttl == ttl && w.isIP == isIP && src == w.sources(c.checked)
      modifies this
      ensures peer == Answer(w, old(entries), c)
      ensures entries == After(w, old(entries), c)
      ensures listings
           == if Lists(w, old(entries), c) then old(listings) + [c.checked] else old(listings)
    {
      hide SplitAddr, Resolved, StoreAll, Found;
      var hp := SplitAddr(c.addr, isIP);
      if hp.host == "" {
        return NO_PEER;
      }
      var hit := Cached(hp.host, c.checked);
      if hit.Some? {
        peer := hit.value;
      } else {
        peer := Resolve(hp.host, src, c.checked, c.listed);
        Store(hp.host, peer, c.stored);
      }
      peer := peer.(port := hp.port);
    }
  }
}
