/** What any sequential run of lookups keeps (internal/peers/peers.go): agreement with the
    resolver without a cache, the identity of cached peers, and the number of listings. */
module PeerRuns {
  import opened Peers
  import opened Rates

  /** The cache after the first n calls. */
  function CacheAt(w: World, calls: seq<Call>, n: nat): Cache
    requires n <= |calls|
  {
    if n == 0 then map[] else After(w, CacheAt(w, calls, n - 1), calls[n - 1])
  }

  function AddressOf(w: World, c: Call): string {
    SplitAddr(c.addr, w.isIP).host
  }

  /** One call after another, on a clock that never goes back. */
  predicate Sequential(calls: seq<Call>) {
    && (forall i | 0 <= i < |calls| :: calls[i].checked <= calls[i].listed <= calls[i].stored)
    && (forall i, j | 0 <= i < j < |calls| :: calls[i].stored <= calls[j].checked)
  }

  /** A resolve and its stores happen at one instant. */
  predicate Instant(calls: seq<Call>) {
    forall i | 0 <= i < |calls| :: calls[i].checked == calls[i].listed == calls[i].stored
  }

  /** Where an entry of the cache after a call comes from. */
  lemma EntryOrigin(w: World, cache: Cache, c: Call, k: string)
    requires k in After(w, cache, c)
    ensures var e := After(w, cache, c)[k];
            || (k in cache && e == cache[k])
            || (Misses(w, cache, c) && k == AddressOf(w, c) && e == Entry(Resolved(w.sources(c.checked), k), c.stored))
            || (&& Misses(w, cache, c) && k in Found(w.sources(c.checked))
                && e == Entry(Found(w.sources(c.checked))[k], c.listed))
  {
    hide Found, Resolved, SplitAddr;
  }

  // ---- Agreement ----

  /** Every entry is what the resolver without a cache would have answered for that address
      at the entry's instant, also when it was stored for the sake of another address. */
  lemma {:induction false} EntriesAgree(w: World, calls: seq<Call>, n: nat, k: string)
    requires n <= |calls| && Instant(calls) && k in CacheAt(w, calls, n)
    ensures var e := CacheAt(w, calls, n)[k];
            e.peer == Resolved(w.sources(e.at), k)
  {
    hide Found, SplitAddr, FromDNS;
    EntryOrigin(w, CacheAt(w, calls, n - 1), calls[n - 1], k);
    if k in CacheAt(w, calls, n - 1) && CacheAt(w, calls, n)[k] == CacheAt(w, calls, n - 1)[k] {
      EntriesAgree(w, calls, n - 1, k);
    }
  }

  lemma {:induction false} StampsArePast(w: World, calls: seq<Call>, n: nat, k: string, now: int)
    requires n <= |calls| && Sequential(calls) && k in CacheAt(w, calls, n)
    requires n > 0 ==> calls[n - 1].stored <= now
    ensures CacheAt(w, calls, n)[k].at <= now
  {
    hide Found, SplitAddr, Resolved;
    EntryOrigin(w, CacheAt(w, calls, n - 1), calls[n - 1], k);
    if k in CacheAt(w, calls, n - 1) && CacheAt(w, calls, n)[k] == CacheAt(w, calls, n - 1)[k] {
      StampsArePast(w, calls, n - 1, k, now);
    }
  }

  /** An instant within the lifetime that ends at `now`. */
  predicate Recent(w: World, t: int, now: int) {
    t <= now && (t == now || now - t < w.ttl)
  }

  /** The answer to any lookup is what the resolver without a cache says at some instant no
      further back than the lifetime, with the port of this connection. */
  lemma AnswersAreRecent(w: World, calls: seq<Call>, n: nat) returns (t: int)
    requires n < |calls| && Instant(calls) && Sequential(calls) && AddressOf(w, calls[n]) != ""
    ensures Recent(w, t, calls[n].checked)
    ensures Answer(w, CacheAt(w, calls, n), calls[n])
         == Resolved(w.sources(t), AddressOf(w, calls[n])).(port := SplitAddr(calls[n].addr, w.isIP).port)
  {
    hide Found, SplitAddr, FromDNS, Resolved;
    var ip, cache := AddressOf(w, calls[n]), CacheAt(w, calls, n);
    if Fresh(cache, ip, calls[n].checked, w.ttl) {
      t := cache[ip].at;
      EntriesAgree(w, calls, n, ip);
      StampsArePast(w, calls, n, ip, calls[n].checked);
    } else {
      t := calls[n].checked;
    }
  }

  /** While the sources' answer for an address has not changed over the last lifetime, the
      cache cannot be told from the resolver without one. */
  lemma CacheIsTransparent(w: World, calls: seq<Call>, n: nat)
    requires n < |calls| && Instant(calls) && Sequential(calls)
    requires forall t | Recent(w, t, calls[n].checked) ::
               Resolved(w.sources(t), AddressOf(w, calls[n]))
               == Resolved(w.sources(calls[n].checked), AddressOf(w, calls[n]))
    ensures Answer(w, CacheAt(w, calls, n), calls[n]) == Answer(w, map[], calls[n])
  {
    hide Found, SplitAddr, FromDNS, Resolved;
    if AddressOf(w, calls[n]) != "" {
      var t := AnswersAreRecent(w, calls, n);
    }
  }

  /** So the answer names the container, the network and the service of the listing's last
      mention of the address, as the listing was at an instant within the lifetime. */
  lemma AnswerNamesContainer(w: World, calls: seq<Call>, n: nat, x: nat, y: nat) returns (t: int)
    requires n < |calls| && Instant(calls) && Sequential(calls) && AddressOf(w, calls[n]) != ""
    ensures Recent(w, t, calls[n].checked)
    ensures var listing, a := w.sources(t).listing, AddressOf(w, calls[n]);
            var p := Answer(w, CacheAt(w, calls, n), calls[n]);
            listing.Listed? && MentionedLast(listing.containers, x, y, a) ==>
              var c := listing.containers[x];
              && p.ip == a && p.hostname == "" && p.network == c.endpoints[y].network
              && (c.names != [] && c.names[0] != "" && c.names[0][0] == '/' ==> "/" + p.container == c.names[0])
              && ("com.docker.compose.service" in c.labels ==> p.service == c.labels["com.docker.compose.service"])
  {
    hide Resolved, SplitAddr, CacheAt, Answer, MentionedLast;
    t := AnswersAreRecent(w, calls, n);
    if w.sources(t).listing.Listed? && MentionedLast(w.sources(t).listing.containers, x, y, AddressOf(w, calls[n])) {
      ListedPeer(w.sources(t), x, y, AddressOf(w, calls[n]));
      MentionInRange(w.sources(t).listing.containers, x, y, AddressOf(w, calls[n]));
    }
  }

  lemma MentionInRange(list: seq<Container>, x: nat, y: nat, a: string)
    requires MentionedLast(list, x, y, a)
    ensures x < |list| && y < |list[x].endpoints|
  {
  }

  // ---- Identity ----

  /** A peer fit to be cached under an address: no port, and never a DNS name together with
      container data. */
  predicate Identifies(p: Peer, ip: string) {
    && p.ip == ip && p.port == ""
    && (p.hostname != "" ==> p.container == "" && p.service == "" && p.network == "")
  }

  lemma {:induction false} ContainerAttachments(c: Container, n: nat)
    requires n <= |c.endpoints|
    ensures forall p | p in OnContainer(c, n) :: Identifies(p, p.ip)
  {
    if n > 0 {
      ContainerAttachments(c, n - 1);
    }
  }

  lemma {:induction false} ListedAttachments(list: seq<Container>, n: nat)
    requires n <= |list|
    ensures forall p | p in Attachments(list, n) :: Identifies(p, p.ip)
  {
    if n > 0 {
      ListedAttachments(list, n - 1);
      ContainerAttachments(list[n - 1], |list[n - 1].endpoints|);
    }
  }

  lemma SourcesIdentify(src: Sources, k: string)
    ensures k in Found(src) ==> Identifies(Found(src)[k], k)
    ensures Identifies(Resolved(src, k), k)
  {
    if src.listing.Listed? {
      ListedAttachments(src.listing.containers, |src.listing.containers|);
    }
  }

  /** Every cached entry is about the address it is stored under. */
  lemma {:induction false} CachedIdentity(w: World, calls: seq<Call>, n: nat, k: string)
    requires n <= |calls| && k in CacheAt(w, calls, n)
    ensures Identifies(CacheAt(w, calls, n)[k].peer, k)
  {
    hide Found, SplitAddr, Resolved, Identifies;
    EntryOrigin(w, CacheAt(w, calls, n - 1), calls[n - 1], k);
    SourcesIdentify(w.sources(calls[n - 1].checked), k);
    if k in CacheAt(w, calls, n - 1) {
      CachedIdentity(w, calls, n - 1, k);
    }
  }

  /** A lookup answers with the address and port it was asked about, or with nothing. */
  lemma AnswerIdentity(w: World, calls: seq<Call>, n: nat)
    requires n < |calls|
    ensures var a, hp := Answer(w, CacheAt(w, calls, n), calls[n]), SplitAddr(calls[n].addr, w.isIP);
            && a.ip == hp.host && a.port == hp.port
            && (a.ip == "" ==> a == NO_PEER)
            && (a.hostname != "" ==> a.container == "" && a.service == "" && a.network == "")
  {
    hide Found, SplitAddr, Resolved;
    var ip := AddressOf(w, calls[n]);
    if ip in CacheAt(w, calls, n) {
      CachedIdentity(w, calls, n, ip);
    }
    SourcesIdentify(w.sources(calls[n].checked), ip);
  }

  // ---- Listings ----

  /** Call i lists the containers, for one of the picked addresses. */
  predicate Triggers(w: World, calls: seq<Call>, i: nat, pick: set<string>)
    requires i < |calls|
  {
    && Lists(w, CacheAt(w, calls, i), calls[i])
    && AddressOf(w, calls[i]) in pick
  }

  /** The calls that do, in order. */
  function TriggeringCalls(w: World, calls: seq<Call>, n: nat, pick: set<string>): seq<nat>
    requires n <= |calls|
  {
    if n == 0 then []
    else TriggeringCalls(w, calls, n - 1, pick) + (if Triggers(w, calls, n - 1, pick) then [n - 1] else [])
  }

  predicate AllTrigger(w: World, calls: seq<Call>, idx: seq<nat>, n: nat, pick: set<string>)
    requires n <= |calls|
  {
    forall k | 0 <= k < |idx| :: idx[k] < n && Triggers(w, calls, idx[k], pick)
  }

  predicate Increasing(idx: seq<nat>) {
    forall i, j | 0 <= i < j < |idx| :: idx[i] < idx[j]
  }

  lemma {:induction false} TriggeringCallsInOrder(w: World, calls: seq<Call>, n: nat, pick: set<string>)
    requires n <= |calls|
    ensures AllTrigger(w, calls, TriggeringCalls(w, calls, n, pick), n, pick)
    ensures Increasing(TriggeringCalls(w, calls, n, pick))
  {
    hide Triggers;
    if n > 0 {
      var before, idx := TriggeringCalls(w, calls, n - 1, pick), TriggeringCalls(w, calls, n, pick);
      TriggeringCallsInOrder(w, calls, n - 1, pick);
      assert idx == before || (idx == before + [n - 1] && Triggers(w, calls, n - 1, pick));
      forall k | 0 <= k < |idx| ensures idx[k] < n && Triggers(w, calls, idx[k], pick) {
        assert k < |before| ==> idx[k] == before[k];
      }
    }
  }

  /** Each listing made for a picked address answers every picked address. */
  predicate CoversAll(w: World, calls: seq<Call>, pick: set<string>) {
    forall i, a | 0 <= i < |calls| && Triggers(w, calls, i, pick) && a in pick ::
      a == AddressOf(w, calls[i]) || a in Found(w.sources(calls[i].checked))
  }

  /** What a miss stores stays at least that recent. */
  lemma {:induction false} StampKept(w: World, calls: seq<Call>, i: nat, n: nat, a: string)
    requires i < n <= |calls| && Sequential(calls) && Misses(w, CacheAt(w, calls, i), calls[i])
    requires a == AddressOf(w, calls[i]) || a in Found(w.sources(calls[i].checked))
    ensures a in CacheAt(w, calls, n) && CacheAt(w, calls, n)[a].at >= calls[i].listed
  {
    hide Found, SplitAddr, Resolved;
    if n > i + 1 {
      StampKept(w, calls, i, n - 1, a);
      EntryOrigin(w, CacheAt(w, calls, n - 1), calls[n - 1], a);
    }
  }

  lemma ListingGap(w: World, calls: seq<Call>, i: nat, j: nat, pick: set<string>)
    requires i < j < |calls| && Sequential(calls) && CoversAll(w, calls, pick)
    requires Triggers(w, calls, i, pick) && Triggers(w, calls, j, pick)
    ensures calls[j].checked - calls[i].checked >= w.ttl
  {
    StampKept(w, calls, i, j, AddressOf(w, calls[j]));
  }

  /** Over a span of time, covered addresses together cost one listing per lifetime. */
  lemma ListingBound(w: World, calls: seq<Call>, pick: set<string>, lo: int, span: nat)
    requires w.ttl > 0 && Sequential(calls) && CoversAll(w, calls, pick)
    requires forall i | 0 <= i < |calls| :: lo <= calls[i].checked <= lo + span
    ensures |TriggeringCalls(w, calls, |calls|, pick)| <= span / w.ttl + 1
  {
    hide Triggers, CoversAll, TriggeringCalls, Sequential;
    var idx := TriggeringCalls(w, calls, |calls|, pick);
    TriggeringCallsInOrder(w, calls, |calls|, pick);
    assert forall k | 0 <= k < |idx| :: idx[k] < |calls| && Triggers(w, calls, idx[k], pick);
    var times := seq(|idx|, i requires 0 <= i < |idx| => calls[idx[i]].checked);
    forall i | 0 < i < |times| ensures times[i] - times[i - 1] >= w.ttl {
      ListingGap(w, calls, idx[i - 1], idx[i], pick);
    }
    SpacedCount(times, w.ttl, lo, span);
  }

  /** One address on its own is always covered. */
  lemma SingleAddressCovered(w: World, calls: seq<Call>, a: string)
    ensures CoversAll(w, calls, {a})
  {
  }

  lemma {:induction false} TriggersSplit(w: World, calls: seq<Call>, n: nat, a: string, pick: set<string>)
    requires n <= |calls|
    ensures |TriggeringCalls(w, calls, n, {a} + pick)|
         <= |TriggeringCalls(w, calls, n, {a})| + |TriggeringCalls(w, calls, n, pick)|
  {
    hide Misses, CacheAt;
    if n > 0 {
      TriggersSplit(w, calls, n - 1, a, pick);
    }
  }

  lemma {:induction false} NothingPicked(w: World, calls: seq<Call>, n: nat)
    requires n <= |calls|
    ensures TriggeringCalls(w, calls, n, {}) == []
  {
    hide Misses, CacheAt;
    if n > 0 {
      NothingPicked(w, calls, n - 1);
    }
  }

  /** Whatever the sources do, k addresses cost at most one listing each per lifetime. */
  lemma {:induction false} TotalListingBound(w: World, calls: seq<Call>, addrs: seq<string>, lo: int, span: nat)
    requires w.ttl > 0 && Sequential(calls)
    requires forall i | 0 <= i < |calls| :: lo <= calls[i].checked <= lo + span
    ensures |TriggeringCalls(w, calls, |calls|, set a | a in addrs)| <= |addrs| * (span / w.ttl + 1)
  {
    hide Triggers, TriggeringCalls, Sequential, CoversAll;
    if addrs == [] {
      assert (set a | a in addrs) == {};
      NothingPicked(w, calls, |calls|);
    } else {
      var rest := set a | a in addrs[1..];
      assert (set a | a in addrs) == {addrs[0]} + rest;
      TotalListingBound(w, calls, addrs[1..], lo, span);
      SingleAddressCovered(w, calls, addrs[0]);
      ListingBound(w, calls, {addrs[0]}, lo, span);
      TriggersSplit(w, calls, |calls|, addrs[0], rest);
      assert |addrs| * (span / w.ttl + 1) == (|addrs| - 1) * (span / w.ttl + 1) + (span / w.ttl + 1);
    }
  }
}
