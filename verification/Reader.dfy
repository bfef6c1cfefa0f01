/** The timed reader in front of the demultiplexer, and the read-then-demux tail of
    ExecInteractive (internal/dockerclient/moby.go). */
module Reader {
  import opened Streams

  const NANOSECONDS_PER_SECOND: int := 1_000_000_000
  const DEFAULT_INTERACTIVE_TIMEOUT: int := 2 * NANOSECONDS_PER_SECOND

  /** What the connection does in one turn of the loop: whether the deadline can be set,
      what one Read delivers, whether it reports an error, and how long it takes. */
  datatype Turn = Turn(armed: bool, chunk: seq<byte>, failed: bool, elapsed: nat)

  /** An arbitrary peer: its behaviour in every turn, and the instant reading begins. */
  datatype Peer = Peer(turns: nat -> Turn, start: int)

  // ---- Where the clock, the window and the data stand before turn i ----

  function Clock(p: Peer, i: nat): int {
    if i == 0 then p.start else Clock(p, i - 1) + p.turns(i - 1).elapsed
  }

  /** The last instant at which payload arrived before turn i, or the start. */
  function LastActivity(p: Peer, i: nat): int {
    if i == 0 then p.start
    else if p.turns(i - 1).chunk != [] then Clock(p, i)
    else LastActivity(p, i - 1)
  }

  function Window(p: Peer, idle: int, i: nat): int {
    LastActivity(p, i) + 2 * idle
  }

  function ReadDeadline(p: Peer, idle: int, i: nat): int {
    if Clock(p, i) + idle > Window(p, idle, i) then Window(p, idle, i) else Clock(p, i) + idle
  }

  function Received(p: Peer, i: nat): seq<byte> {
    if i == 0 then [] else Received(p, i - 1) + p.turns(i - 1).chunk
  }

  // ---- When reading ends ----

  /** Turn i ends the loop before it reads: the window has passed or no deadline can be set. */
  predicate EndsBeforeRead(p: Peer, idle: int, i: nat) {
    Clock(p, i) >= Window(p, idle, i) || !p.turns(i).armed
  }

  /** The loop goes through the turns before k without a reason to end. */
  predicate RunsThrough(p: Peer, idle: int, k: nat) {
    forall j: nat {:trigger EndsBeforeRead(p, idle, j)} | j < k :: !EndsBeforeRead(p, idle, j) && !p.turns(j).failed
  }

  /** Exactly k reads happen: either nothing is read in turn k, or the last read fails. */
  predicate EndsAfter(p: Peer, idle: int, k: nat) {
    || (RunsThrough(p, idle, k) && EndsBeforeRead(p, idle, k))
    || (k > 0 && RunsThrough(p, idle, k - 1) && !EndsBeforeRead(p, idle, k - 1) && p.turns(k - 1).failed)
  }

  /** From turn `quiet` on no payload arrives. */
  ghost predicate QuietFrom(p: Peer, quiet: nat) {
    forall j: nat | j >= quiet :: p.turns(j).chunk == []
  }

  /** A Read that delivers nothing and reports nothing has waited. */
  ghost predicate EmptyReadsWait(p: Peer) {
    forall j: nat :: p.turns(j).chunk == [] && !p.turns(j).failed ==> p.turns(j).elapsed > 0
  }

  // ---- The connection ----

  class Conn {
    const peer: Peer
    var turn: nat
    var now: int
    ghost var deadline: int

    ghost predicate Valid()
      reads this
    {
      now == Clock(peer, turn)
    }

    constructor (peer: Peer)
      ensures Valid() && this.peer == peer && turn == 0
    {
      this.peer, turn, now, deadline := peer, 0, peer.start, peer.start;
    }

    method SetReadDeadline(t: int) returns (ok: bool)
      modifies this`deadline
      ensures ok == peer.turns(turn).armed
      ensures deadline == if ok then t else old(deadline)
    {
      ok := peer.turns(turn).armed;
      deadline := if ok then t else deadline;
    }

    method Read() returns (chunk: seq<byte>, failed: bool)
      requires Valid()
      modifies this`turn, this`now
      ensures Valid() && turn == old(turn) + 1
      ensures chunk == peer.turns(old(turn)).chunk && failed == peer.turns(old(turn)).failed
    {
      var t := peer.turns(turn);
      chunk, failed := t.chunk, t.failed;
      turn, now := turn + 1, now + t.elapsed;
    }
  }

  /** How one read moves the data, the window and, when nothing arrives, the clock. */
  lemma {:induction false} TurnPasses(p: Peer, idle: int, i: nat)
    ensures Received(p, i + 1) == if p.turns(i).chunk == [] then Received(p, i) else Received(p, i) + p.turns(i).chunk
    ensures Window(p, idle, i + 1) == if p.turns(i).chunk == [] then Window(p, idle, i) else Clock(p, i + 1) + 2 * idle
    ensures RunsThrough(p, idle, i) && !EndsBeforeRead(p, idle, i) && !p.turns(i).failed ==> RunsThrough(p, idle, i + 1)
    ensures EmptyReadsWait(p) && p.turns(i).chunk == [] && !p.turns(i).failed ==> Clock(p, i + 1) > Clock(p, i)
  {
    if RunsThrough(p, idle, i) && !EndsBeforeRead(p, idle, i) && !p.turns(i).failed {
      forall j: nat | j < i + 1 ensures !EndsBeforeRead(p, idle, j) && !p.turns(j).failed {
        assert j < i ==> !EndsBeforeRead(p, idle, j);
      }
    }
  }

  /** Collects until the idle window closes. The result is every chunk read, in order,
      including one delivered together with an error; `conn.turn` counts the reads. */
  method ReadUntilIdle(conn: Conn, idle: int, ghost quiet: nat) returns (out: seq<byte>)
    requires conn.Valid() && conn.turn == 0
    requires QuietFrom(conn.peer, quiet) && EmptyReadsWait(conn.peer)
    modifies conn
    ensures conn.Valid()
    ensures out == Received(conn.peer, conn.turn)
    ensures EndsAfter(conn.peer, idle, conn.turn)
  {
    out := [];
    var deadline := conn.now + 2 * idle;
    while true
      invariant conn.Valid()
      invariant out == Received(conn.peer, conn.turn)
      invariant deadline == Window(conn.peer, idle, conn.turn)
      invariant RunsThrough(conn.peer, idle, conn.turn)
      decreases if conn.turn < quiet then quiet - conn.turn else 0, deadline - conn.now
    {
      var next := conn.now + idle;
      if next > deadline {
        next := deadline;
      }
      if conn.now >= deadline {
        return;
      }
      var ok := conn.SetReadDeadline(next);
      if !ok {
        return;
      }
      assert conn.deadline == ReadDeadline(conn.peer, idle, conn.turn);
      TurnPasses(conn.peer, idle, conn.turn);
      var chunk, failed := conn.Read();
      if |chunk| > 0 {
        out := out + chunk;
        deadline := conn.now + 2 * idle;
      }
      if failed {
        return;
      }
    }
  }

  /** The tail of ExecInteractive: read until idle, keep what was not sent to stderr. */
  method CollectStdout(conn: Conn, timeout: int, ghost quiet: nat) returns (stdout: seq<byte>)
    requires conn.Valid() && conn.turn == 0
    requires QuietFrom(conn.peer, quiet) && EmptyReadsWait(conn.peer)
    modifies conn
    ensures EndsAfter(conn.peer, EffectiveTimeout(timeout), conn.turn)
    ensures stdout == Output(Frames(Received(conn.peer, conn.turn)), Stdout)
  {
    var idle := if timeout == 0 then DEFAULT_INTERACTIVE_TIMEOUT else timeout;
    var raw := ReadUntilIdle(conn, idle, quiet);
    var text, _ := Demux(raw);
    stdout := text;
  }

  function EffectiveTimeout(timeout: int): int {
    if timeout == 0 then DEFAULT_INTERACTIVE_TIMEOUT else timeout
  }

  /** In nanoseconds: two seconds for a timeout of zero, the timeout itself otherwise. */
  lemma TimeoutSpelled(timeout: int)
    ensures EffectiveTimeout(timeout) == if timeout == 0 then 2_000_000_000 else timeout
  {
  }

  // ---- What the end point means ----

  /** The number of reads is determined by the peer. */
  lemma EndIsUnique(p: Peer, idle: int, k: nat, m: nat)
    requires EndsAfter(p, idle, k) && EndsAfter(p, idle, m)
    ensures k == m
  {
  }

  /** Every Read up to turn k comes back by the deadline that was set for it. */
  ghost predicate Punctual(p: Peer, idle: int, k: nat) {
    forall j: nat {:trigger ReadDeadline(p, idle, j)} | j < k :: Clock(p, j + 1) <= ReadDeadline(p, idle, j)
  }

  lemma {:induction false} WithinWindow(p: Peer, idle: int, k: nat)
    requires idle >= 0 && Punctual(p, idle, k)
    ensures Clock(p, k) <= Window(p, idle, k)
  {
    if k > 0 {
      WithinWindow(p, idle, k - 1);
      assert Clock(p, (k - 1) + 1) <= ReadDeadline(p, idle, k - 1);
    }
  }

  /** With a punctual connection, reading is over at most two idle spans after the last
      payload, or after the start when none arrived; a negative span ends it at once. */
  lemma IdleBound(p: Peer, idle: int, k: nat)
    requires EndsAfter(p, idle, k) && Punctual(p, idle, k)
    ensures Clock(p, k) <= LastActivity(p, k) + (if idle > 0 then 2 * idle else 0)
    ensures idle <= 0 ==> k == 0
  {
    if idle >= 0 {
      WithinWindow(p, idle, k);
    }
    if idle <= 0 {
      assert EndsBeforeRead(p, idle, 0);
    }
  }

  /** A Read up to turn k delivers payload or reports an error, such as its deadline. */
  predicate NeverEmptyHanded(p: Peer, k: nat) {
    forall j: nat {:trigger p.turns(j)} | j < k :: p.turns(j).chunk != [] || p.turns(j).failed
  }

  /** If besides no Read comes back empty-handed, a single idle span is enough. */
  lemma SingleIdleBound(p: Peer, idle: int, k: nat)
    requires EndsAfter(p, idle, k) && Punctual(p, idle, k) && NeverEmptyHanded(p, k)
    ensures Clock(p, k) <= LastActivity(p, k) + (if idle > 0 then idle else 0)
  {
    if k > 0 && p.turns(k - 1).chunk == [] {
      assert !EndsBeforeRead(p, idle, k - 1);
      assert k > 1 ==> !p.turns(k - 2).failed && p.turns(k - 2).chunk != [] by {
        assert k > 1 ==> !EndsBeforeRead(p, idle, k - 2);
      }
      assert LastActivity(p, k - 1) == Clock(p, k - 1);
      assert Clock(p, (k - 1) + 1) <= ReadDeadline(p, idle, k - 1);
    }
  }

  // ---- The bound on the whole ----

  /** The last of k reads delivers nothing and runs out its deadline: the peer stays open. */
  predicate RunsOut(p: Peer, idle: int, k: nat) {
    k > 0 && p.turns(k - 1).chunk == [] && Clock(p, k) == ReadDeadline(p, idle, k - 1)
  }

  /** What the reads before the end of the loop leave: all of them delivered payload. */
  lemma LastReadStarts(p: Peer, idle: int, k: nat)
    requires idle > 0 && k > 0 && EndsAfter(p, idle, k) && NeverEmptyHanded(p, k) && p.turns(k - 1).chunk == []
    ensures LastActivity(p, k) == Clock(p, k - 1) && !EndsBeforeRead(p, idle, k - 1)
  {
    assert p.turns(k - 1).failed;
    assert !EndsBeforeRead(p, idle, k - 1);
    if k > 1 {
      assert !EndsBeforeRead(p, idle, k - 2) && !p.turns(k - 2).failed;
      assert p.turns(k - 2).chunk != [];
    }
  }

  /** However reading ends, twice the span from the start is enough if no payload arrives
      later than one span after the start. */
  lemma TotalBound(p: Peer, idle: int, k: nat)
    requires idle > 0 && EndsAfter(p, idle, k) && Punctual(p, idle, k) && NeverEmptyHanded(p, k)
    requires LastActivity(p, k) <= p.start + idle
    ensures Clock(p, k) <= p.start + 2 * idle
  {
    SingleIdleBound(p, idle, k);
  }

  /** And against a peer that stays open that is the exact condition: reading is over within
      twice the span from the start if and only if no payload arrives later than one span
      after it. */
  lemma TotalBoundIff(p: Peer, idle: int, k: nat)
    requires idle > 0 && EndsAfter(p, idle, k) && Punctual(p, idle, k) && NeverEmptyHanded(p, k)
    requires RunsOut(p, idle, k)
    ensures Clock(p, k) <= p.start + 2 * idle <==> LastActivity(p, k) <= p.start + idle
  {
    LastReadStarts(p, idle, k);
    LastActivityKept(p, k - 1);
  }

  lemma LastActivityKept(p: Peer, i: nat)
    requires p.turns(i).chunk == []
    ensures LastActivity(p, i + 1) == LastActivity(p, i)
  {
  }

  /** The traffic of the first n turns of p: the loop is still running after it, with every
      read on time and with payload. */
  ghost predicate Delivers(p: Peer, idle: int, n: nat) {
    && RunsThrough(p, idle, n) && Punctual(p, idle, n)
    && forall j: nat {:trigger p.turns(j)} | j < n :: p.turns(j).chunk != []
  }

  /** q goes on after the first n turns of p without any further payload. */
  ghost predicate FallsSilent(q: Peer, p: Peer, n: nat) {
    && q.start == p.start && QuietFrom(q, n)
    && forall j: nat {:trigger q.turns(j)} | j < n :: q.turns(j) == p.turns(j)
  }

  lemma {:induction false} SameTraffic(q: Peer, p: Peer, n: nat, i: nat)
    requires FallsSilent(q, p, n) && i <= n
    ensures Clock(q, i) == Clock(p, i) && LastActivity(q, i) == LastActivity(p, i)
  {
    if i > 0 {
      SameTraffic(q, p, n, i - 1);
      assert q.turns(i - 1) == p.turns(i - 1);
    }
  }

  lemma {:induction false} SilenceIsNoActivity(q: Peer, n: nat, i: nat)
    requires QuietFrom(q, n) && n <= i
    ensures LastActivity(q, i) == LastActivity(q, n)
  {
    if n < i {
      SilenceIsNoActivity(q, n, i - 1);
      assert q.turns(i - 1).chunk == [];
    }
  }

  /** With the same traffic the loop runs as far. */
  lemma RunsAsFar(q: Peer, p: Peer, idle: int, n: nat)
    requires RunsThrough(p, idle, n) && FallsSilent(q, p, n)
    ensures RunsThrough(q, idle, n)
  {
    forall j: nat | j < n ensures !EndsBeforeRead(q, idle, j) && !q.turns(j).failed {
      SameTraffic(q, p, n, j);
      assert !EndsBeforeRead(p, idle, j) && q.turns(j) == p.turns(j);
    }
  }

  /** If reading from q ends after k reads, it does within twice the span from the start. */
  ghost predicate WithinTotal(q: Peer, idle: int, k: nat) {
    EndsAfter(q, idle, k) && Punctual(q, idle, k) && NeverEmptyHanded(q, k) ==> Clock(q, k) <= q.start + 2 * idle
  }

  /** The peer that sends what p sends in the first n turns and then lets a read run out. */
  function Lingering(p: Peer, idle: nat, n: nat): Peer {
    Peer((i: nat) => if i < n then p.turns(i) else Turn(true, [], true, idle), p.start)
  }

  lemma LingeringRunsOut(p: Peer, idle: nat, n: nat)
    requires idle > 0 && Delivers(p, idle, n)
    ensures var q := Lingering(p, idle, n);
            && FallsSilent(q, p, n) && EndsAfter(q, idle, n + 1) && Punctual(q, idle, n + 1)
            && NeverEmptyHanded(q, n + 1) && RunsOut(q, idle, n + 1)
            && Clock(q, n + 1) == LastActivity(p, n) + idle
  {
    var q := Lingering(p, idle, n);
    forall j: nat | j <= n
      ensures Clock(q, j) == Clock(p, j) && LastActivity(q, j) == LastActivity(p, j)
    {
      SameTraffic(q, p, n, j);
    }
    forall j: nat | j < n
      ensures !EndsBeforeRead(q, idle, j) && !q.turns(j).failed && Clock(q, j + 1) <= ReadDeadline(q, idle, j)
    {
      assert !EndsBeforeRead(p, idle, j) && Clock(p, j + 1) <= ReadDeadline(p, idle, j);
    }
    assert n > 0 ==> p.turns(n - 1).chunk != [];
    assert LastActivity(q, n) == Clock(q, n);
    assert !EndsBeforeRead(q, idle, n) && Clock(q, n + 1) == ReadDeadline(q, idle, n);
  }

  /** Seen from the traffic alone: reading is over within twice the span from the start for
      every way the peer can fall silent, if and only if the payload ended no later than one
      span after the start. */
  lemma TotalBoundOfTraffic(p: Peer, idle: nat, n: nat)
    requires idle > 0 && Delivers(p, idle, n)
    ensures LastActivity(p, n) <= p.start + idle
       <==> forall q: Peer, k: nat | FallsSilent(q, p, n) :: WithinTotal(q, idle, k)
  {
    if LastActivity(p, n) <= p.start + idle {
      forall q: Peer, k: nat | FallsSilent(q, p, n) ensures WithinTotal(q, idle, k) {
        if EndsAfter(q, idle, k) && Punctual(q, idle, k) && NeverEmptyHanded(q, k) {
          RunsAsFar(q, p, idle, n);
          assert k >= n;
          SameTraffic(q, p, n, n);
          SilenceIsNoActivity(q, n, k);
          TotalBound(q, idle, k);
        }
      }
    } else {
      LingeringRunsOut(p, idle, n);
      assert !WithinTotal(Lingering(p, idle, n), idle, n + 1);
    }
  }

  /** A peer that sends one byte every `step` for n turns and then stays open. */
  function SteadyPeer(step: nat, idle: nat, n: nat): Peer {
    Lingering(Peer((i: nat) => Turn(true, [0], false, step), 0), idle, n)
  }

  lemma {:induction false} SteadyClock(step: nat, idle: nat, n: nat, i: nat)
    requires i <= n
    ensures var p := SteadyPeer(step, idle, n); Clock(p, i) == i * step && LastActivity(p, i) == i * step
  {
    if i > 0 {
      SteadyClock(step, idle, n, i - 1);
      assert (i - 1) * step + step == i * step;
    }
  }

  /** Reading as a whole has no bound: payload that keeps arriving within the idle span keeps
      it going for any number of steps, with a peer that ReadUntilIdle must cope with. */
  lemma NoTotalBound(step: nat, idle: nat, n: nat)
    requires 0 < step < idle
    ensures var p := SteadyPeer(step, idle, n);
            && QuietFrom(p, n) && EmptyReadsWait(p)
            && EndsAfter(p, idle, n + 1) && Punctual(p, idle, n + 1) && Clock(p, n + 1) == n * step + idle
  {
    var p := SteadyPeer(step, idle, n);
    forall j: nat | j <= n
      ensures !EndsBeforeRead(p, idle, j) && Clock(p, j + 1) <= ReadDeadline(p, idle, j)
    {
      SteadyClock(step, idle, n, j);
    }
    SteadyClock(step, idle, n, n);
  }

  // ---- Chunking and cut-off independence ----

  lemma {:induction false} ReceivedGrows(p: Peer, k: nat, m: nat)
    requires k <= m
    ensures Received(p, k) <= Received(p, m)
  {
    if k < m {
      ReceivedGrows(p, k, m - 1);
    }
  }

  lemma {:induction false} QuietReceivesNothing(p: Peer, quiet: nat, m: nat)
    requires QuietFrom(p, quiet) && quiet <= m
    ensures Received(p, m) == Received(p, quiet)
  {
    if quiet < m {
      QuietReceivesNothing(p, quiet, m - 1);
      assert p.turns(m - 1).chunk == [];
    }
  }

  /** Whatever the chunking and wherever reading stops, the result is a prefix of the
      stdout that the whole stream decodes to. */
  lemma StoppedAnywhere(p: Peer, k: nat, quiet: nat)
    requires QuietFrom(p, quiet)
    ensures Output(Frames(Received(p, k)), Stdout) <= Output(Frames(Received(p, quiet)), Stdout)
  {
    if k <= quiet {
      ReceivedGrows(p, k, quiet);
    } else {
      QuietReceivesNothing(p, quiet, k);
    }
    CutOffIndependence(Received(p, k), Received(p, quiet), Stdout);
  }

  /** Two deliveries of the same stream, chunked and timed differently, never contradict
      each other: one result is a prefix of the other. */
  lemma ChunkingIndependence(p: Peer, idle: int, k: nat, quietP: nat, q: Peer, idleQ: int, m: nat, quietQ: nat)
    requires EndsAfter(p, idle, k) && QuietFrom(p, quietP)
    requires EndsAfter(q, idleQ, m) && QuietFrom(q, quietQ)
    requires Received(p, quietP) == Received(q, quietQ)
    ensures var a := Output(Frames(Received(p, k)), Stdout);
            var b := Output(Frames(Received(q, m)), Stdout);
            a <= b || b <= a
  {
    StoppedAnywhere(p, k, quietP);
    StoppedAnywhere(q, m, quietQ);
  }
}
