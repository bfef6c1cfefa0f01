/** What an answer of the statistics collector tells about the run that led to it. */
module CollectorOutcomes {
  import opened CollectorModel
  import opened CollectorSafety
  import opened CollectorBuffers
  import opened Options

  // ---- One action and one request ----

  /** The progress of request q after its own step. */
  function Moved(cfg: Config, s: State, q: nat, move: RequestStep): Progress
    requires q < |s.requests|
  {
    var x := s.requests[q];
    if !move.Join? then StepRequest(cfg, s, x, move)
    else if x.progress.Joining? then Timing(Joined(s, x.subject).1)
    else x.progress
  }

  /** Its own steps move a request, nothing else does; new ones begin with a look at the store. */
  lemma NextRequestAt(cfg: Config, s: State, a: Action, q: nat)
    requires q < |Next(cfg, s, a).requests|
    ensures var x := Next(cfg, s, a).requests[q];
            if q >= |s.requests| then x.progress.Asking?
            else && x.subject == s.requests[q].subject
                 && x.progress == if a.OfRequest? && a.q == q then Moved(cfg, s, q, a.move) else s.requests[q].progress
  {
    hide NextRefresh, Visible, StepRequest;
    if a.OfRefresh? {
      RefreshLeavesRequests(cfg, s, a.r, a.step);
    }
  }

  lemma RefreshLeavesRequests(cfg: Config, s: State, r: nat, step: RefreshStep)
    ensures NextRefresh(cfg, s, r, step).requests == s.requests
  {
    hide StepRefresh, Visible;
  }

  function ProgressAt(cfg: Config, acts: seq<Action>, n: nat, q: nat): Progress
    requires n <= |acts| && q < |StateAt(cfg, acts, n).requests|
  {
    StateAt(cfg, acts, n).requests[q].progress
  }

  function SubjectAt(cfg: Config, acts: seq<Action>, n: nat, q: nat): Subject
    requires n <= |acts| && q < |StateAt(cfg, acts, n).requests|
  {
    StateAt(cfg, acts, n).requests[q].subject
  }

  // ---- Looking back along the run ----

  /** Action i is the step `move` of request q. */
  predicate Makes(cfg: Config, acts: seq<Action>, i: nat, q: nat, move: RequestStep) {
    i < |acts| && acts[i] == OfRequest(q, move) && q < |StateAt(cfg, acts, i).requests|
  }

  predicate JoinedAt(cfg: Config, acts: seq<Action>, m: nat, q: nat, r: nat) {
    && Makes(cfg, acts, m, q, Join) && ProgressAt(cfg, acts, m, q).Joining?
    && Joined(StateAt(cfg, acts, m), SubjectAt(cfg, acts, m, q)).1 == r
  }

  predicate ArmedAt(cfg: Config, acts: seq<Action>, k: nat, q: nat, r: nat, timer: Time) {
    && Makes(cfg, acts, k, q, StartTimer) && ProgressAt(cfg, acts, k, q) == Timing(r)
    && timer == StateAt(cfg, acts, k).now + EffectiveTimeout(cfg)
  }

  /** The second Get of the request worked and found nothing. */
  predicate MissedAt(cfg: Config, acts: seq<Action>, j: nat, q: nat, r: nat) {
    && Makes(cfg, acts, j, q, SecondGet(false)) && ProgressAt(cfg, acts, j, q) == Rereading(r)
    && Visible(StateAt(cfg, acts, j), Key(SubjectAt(cfg, acts, j, q))).None?
  }

  predicate AnsweredAt(cfg: Config, acts: seq<Action>, i: nat, q: nat, o: Outcome) {
    && i < |acts| && acts[i].OfRequest? && acts[i].q == q && q < |StateAt(cfg, acts, i).requests|
    && !ProgressAt(cfg, acts, i, q).Answered? && !acts[i].move.Join?
    && StepRequest(cfg, StateAt(cfg, acts, i), StateAt(cfg, acts, i).requests[q], acts[i].move) == Answered(o)
  }

  /** A request that was not there before has only just begun. */
  lemma Begun(cfg: Config, acts: seq<Action>, n: nat, q: nat)
    requires n <= |acts| && q < |StateAt(cfg, acts, n).requests| && !ProgressAt(cfg, acts, n, q).Asking?
    ensures n > 0 && q < |StateAt(cfg, acts, n - 1).requests|
    ensures SubjectAt(cfg, acts, n - 1, q) == SubjectAt(cfg, acts, n, q)
    ensures ProgressAt(cfg, acts, n, q) ==
              if acts[n - 1].OfRequest? && acts[n - 1].q == q
              then Moved(cfg, StateAt(cfg, acts, n - 1), q, acts[n - 1].move)
              else ProgressAt(cfg, acts, n - 1, q)
  {
    hide Next, Moved;
    assert n > 0;
    NextRequestAt(cfg, StateAt(cfg, acts, n - 1), acts[n - 1], q);
  }

  function RefreshOf(p: Progress): Option<nat> {
    match p
    case Timing(r) => Some(r)
    case Blocked(r, _) => Some(r)
    case Rereading(r) => Some(r)
    case Judging(r) => Some(r)
    case _ => None
  }

  lemma {:induction false} FindJoin(cfg: Config, acts: seq<Action>, n: nat, q: nat) returns (m: nat)
    requires n <= |acts| && q < |StateAt(cfg, acts, n).requests| && RefreshOf(ProgressAt(cfg, acts, n, q)).Some?
    ensures m < n && JoinedAt(cfg, acts, m, q, RefreshOf(ProgressAt(cfg, acts, n, q)).value)
    ensures SubjectAt(cfg, acts, m, q) == SubjectAt(cfg, acts, n, q)
  {
    hide StateAt, Joined, Visible;
    Begun(cfg, acts, n, q);
    if acts[n - 1] == OfRequest(q, Join) && ProgressAt(cfg, acts, n - 1, q).Joining? {
      m := n - 1;
    } else {
      m := FindJoin(cfg, acts, n - 1, q);
    }
  }

  lemma {:induction false} FindArm(cfg: Config, acts: seq<Action>, n: nat, q: nat) returns (k: nat)
    requires n <= |acts| && q < |StateAt(cfg, acts, n).requests| && ProgressAt(cfg, acts, n, q).Blocked?
    ensures var p := ProgressAt(cfg, acts, n, q); k < n && ArmedAt(cfg, acts, k, q, p.r, p.timer)
  {
    hide StateAt, Joined, Visible;
    Begun(cfg, acts, n, q);
    if acts[n - 1] == OfRequest(q, StartTimer) && ProgressAt(cfg, acts, n - 1, q).Timing? {
      k := n - 1;
    } else {
      k := FindArm(cfg, acts, n - 1, q);
    }
  }

  lemma {:induction false} FindMiss(cfg: Config, acts: seq<Action>, n: nat, q: nat) returns (j: nat)
    requires n <= |acts| && q < |StateAt(cfg, acts, n).requests| && ProgressAt(cfg, acts, n, q).Judging?
    ensures j < n && MissedAt(cfg, acts, j, q, ProgressAt(cfg, acts, n, q).r)
    ensures SubjectAt(cfg, acts, j, q) == SubjectAt(cfg, acts, n, q)
  {
    hide StateAt, Joined, Visible;
    Begun(cfg, acts, n, q);
    if acts[n - 1] == OfRequest(q, SecondGet(false)) && ProgressAt(cfg, acts, n - 1, q).Rereading? {
      j := n - 1;
    } else {
      j := FindMiss(cfg, acts, n - 1, q);
    }
  }

  lemma {:induction false} FindAnswer(cfg: Config, acts: seq<Action>, n: nat, q: nat) returns (i: nat)
    requires n <= |acts| && q < |StateAt(cfg, acts, n).requests| && ProgressAt(cfg, acts, n, q).Answered?
    ensures i < n && AnsweredAt(cfg, acts, i, q, ProgressAt(cfg, acts, n, q).outcome)
    ensures SubjectAt(cfg, acts, i, q) == SubjectAt(cfg, acts, n, q)
  {
    hide StateAt, Joined, Visible;
    Begun(cfg, acts, n, q);
    if ProgressAt(cfg, acts, n - 1, q).Answered? {
      i := FindAnswer(cfg, acts, n - 1, q);
    } else {
      i := n - 1;
    }
  }

  // ---- Stored values stay until they expire ----

  /** The first measurement, if it was stored, is still covered by an entry that lives at
      least as long as its own would have, or by a foreign write. */
  predicate Covered(s: State, key: string, at: Time, ttl: Time) {
    && key in s.store
    && (s.store[key].expires >= at + ttl || s.store[key].raw.Unreadable?)
  }

  predicate AllCovered(s: State) {
    forall i | 0 <= i < |s.refreshes| && s.refreshes[i].first.Stored? ::
      Covered(s, KeyOf(s, i), s.refreshes[i].first.at, TTL(s.refreshes[i].subject))
  }

  lemma SetKeepsCovered(cfg: Config, s: State, r: nat)
    requires AllLocal(cfg, s) && AllCovered(s) && r < |s.refreshes| && s.refreshes[r].phase.Storing?
    ensures AllCovered(NextRefresh(cfg, s, r, Store(None)))
  {
    hide NextRefresh, HistoryOf, TTL, RoundOk, ProtocolOk, Key;
    var t := NextRefresh(cfg, s, r, Store(None));
    SetShape(cfg, s, r);
    SetFirst(cfg, s, r);
    forall i | 0 <= i < |t.refreshes| && t.refreshes[i].first.Stored?
      ensures Covered(t, KeyOf(t, i), t.refreshes[i].first.at, TTL(t.refreshes[i].subject))
    {
      if KeyOf(t, i) == KeyOf(s, r) {
        assert LocalOk(cfg, s.refreshes[i], s.now) && LocalOk(cfg, s.refreshes[r], s.now);
        KeysApart(t.refreshes[i].subject, s.refreshes[r].subject);
      }
    }
  }

  lemma SetFirst(cfg: Config, s: State, r: nat)
    requires r < |s.refreshes| && s.refreshes[r].phase.Storing?
    ensures var t := NextRefresh(cfg, s, r, Store(None));
            r < |t.refreshes| && (t.refreshes[r].first == s.refreshes[r].first || t.refreshes[r].first == Stored(s.now))
  {
  }

  /** A step that stores nothing does not turn a first measurement into a stored one. */
  lemma StoredOnlyBySet(cfg: Config, f: Refresh, now: Time, seen: Option<Raw>, step: RefreshStep)
    requires CanStep(cfg, f, now, step) && step != Store(None)
    ensures var g := StepRefresh(cfg, f, now, seen, step);
            g.subject == f.subject && (g.first.Stored? ==> g.first == f.first)
  {
  }

  lemma NextKeepsCovered(cfg: Config, s: State, a: Action)
    requires Safe(cfg, s) && AllCovered(s)
    ensures AllCovered(Next(cfg, s, a))
  {
    hide InflightExact, AllRequests, StartsSpaced, LocalOk, StepRequest, StepRefresh, Visible, CanStep, Key, TTL;
    var t := Next(cfg, s, a);
    if a.OfRefresh? && a.step == Store(None) && Moves(cfg, s, a, a.r) {
      StoringAt(cfg, s, a.r);
      SetKeepsCovered(cfg, s, a.r);
    } else {
      forall i | 0 <= i < |t.refreshes| && t.refreshes[i].first.Stored?
        ensures Covered(t, KeyOf(t, i), t.refreshes[i].first.at, TTL(t.refreshes[i].subject))
      {
        NextRefreshAt(cfg, s, a, i);
        if Moves(cfg, s, a, i) {
          StoredOnlyBySet(cfg, s.refreshes[i], s.now, Visible(s, KeyOf(s, i)), a.step);
        }
        CoveredStays(cfg, s, a, KeyOf(s, i), s.refreshes[i].first.at, TTL(s.refreshes[i].subject));
      }
    }
  }

  lemma CoveredStays(cfg: Config, s: State, a: Action, key: string, at: Time, ttl: Time)
    requires Covered(s, key, at, ttl)
    requires !(a.OfRefresh? && a.step == Store(None) && Moves(cfg, s, a, a.r))
    ensures Covered(Next(cfg, s, a), key, at, ttl)
  {
    hide StepRequest, StepRefresh, Visible, CanStep, Key, TTL;
  }

  lemma {:induction false} ReachableCovered(cfg: Config, acts: seq<Action>, n: nat)
    requires n <= |acts|
    ensures AllCovered(StateAt(cfg, acts, n))
  {
    hide Next, Safe, AllCovered;
    if n > 0 {
      ReachableCovered(cfg, acts, n - 1);
      Reachable(cfg, acts, n - 1);
      NextKeepsCovered(cfg, StateAt(cfg, acts, n - 1), acts[n - 1]);
    } else {
      InitialCovered();
    }
  }

  lemma InitialCovered()
    ensures AllCovered(INITIAL)
  {
  }

  // ---- What each outcome means ----

  /** A returned value was in the store, unexpired, at a Get of this very request. */
  lemma ReturnedValueWasSeen(cfg: Config, acts: seq<Action>, n: nat, q: nat) returns (i: nat)
    requires n <= |acts| && q < |StateAt(cfg, acts, n).requests|
    requires ProgressAt(cfg, acts, n, q).Answered? && ProgressAt(cfg, acts, n, q).outcome.Value?
    ensures i < n && (Makes(cfg, acts, i, q, FirstGet(false)) || Makes(cfg, acts, i, q, SecondGet(false)))
    ensures Visible(StateAt(cfg, acts, i), Key(SubjectAt(cfg, acts, n, q)))
         == Some(ProgressAt(cfg, acts, n, q).outcome.raw)
  {
    hide StateAt, Visible;
    i := FindAnswer(cfg, acts, n, q);
  }

  /** So a readable answer about a container is its ring buffer of that moment. */
  lemma ReturnedBufferIsRecent(cfg: Config, acts: seq<Action>, n: nat, q: nat) returns (i: nat)
    requires n <= |acts| && q < |StateAt(cfg, acts, n).requests|
    requires ProgressAt(cfg, acts, n, q).Answered? && ProgressAt(cfg, acts, n, q).outcome.Value?
    ensures i < n
    ensures var samples := StoredSamples(cfg, acts, i, Key(SubjectAt(cfg, acts, n, q)));
            RecentOf(ProgressAt(cfg, acts, n, q).outcome.raw, samples)
  {
    hide StateAt, StoredSamples, HistoryOf, Key;
    i := ReturnedValueWasSeen(cfg, acts, n, q);
    ReachableBuffers(cfg, acts, i);
    HistoryIsStored(cfg, acts, i, Key(SubjectAt(cfg, acts, n, q)));
    VisibleIsRecent(StateAt(cfg, acts, i), Key(SubjectAt(cfg, acts, n, q)));
  }

  /** A second Get that found nothing: what is known about the refresh that was joined. */
  lemma MissedRefresh(cfg: Config, acts: seq<Action>, j: nat, q: nat, r: nat)
    requires MissedAt(cfg, acts, j, q, r)
    ensures r < |StateAt(cfg, acts, j).refreshes|
    ensures var f := StateAt(cfg, acts, j).refreshes[r];
            f.done && f.subject == SubjectAt(cfg, acts, j, q) && !f.first.Pending?
            && f.err == if f.first.Failed? then Some(f.first.error) else None
  {
    hide StateAt, Visible, InflightExact, StartsSpaced, TimingOk, RoundOk;
    Reachable(cfg, acts, j);
    RequestAt(cfg, StateAt(cfg, acts, j), q);
    assert LocalOk(cfg, StateAt(cfg, acts, j).refreshes[r], StateAt(cfg, acts, j).now);
  }

  /** The value stored under the key at the instant `at` is gone: it has had its time, or a
      foreign write has taken its place. */
  predicate LapsedSince(s: State, key: string, at: Time, ttl: Time) {
    s.now >= at + ttl || (key in s.store && s.store[key].raw.Unreadable?)
  }

  lemma MissedIsLapsed(cfg: Config, acts: seq<Action>, j: nat, q: nat, r: nat)
    requires MissedAt(cfg, acts, j, q, r) && r < |StateAt(cfg, acts, j).refreshes|
    requires StateAt(cfg, acts, j).refreshes[r].first.Stored?
    ensures var s := StateAt(cfg, acts, j);
            LapsedSince(s, KeyOf(s, r), s.refreshes[r].first.at, TTL(s.refreshes[r].subject))
  {
    hide StateAt, TTL;
    ReachableCovered(cfg, acts, j);
    MissedRefresh(cfg, acts, j, q, r);
  }

  /** The judged refresh at the moment of the answer: nothing has changed since the miss. */
  lemma JudgedRefresh(cfg: Config, acts: seq<Action>, j: nat, i: nat, q: nat, r: nat)
    requires MissedAt(cfg, acts, j, q, r) && j <= i <= |acts|
    ensures r < |StateAt(cfg, acts, j).refreshes| && r < |StateAt(cfg, acts, i).refreshes|
    ensures var f, g := StateAt(cfg, acts, j).refreshes[r], StateAt(cfg, acts, i).refreshes[r];
            g.first == f.first && !f.first.Pending? && g.err == if f.first.Failed? then Some(f.first.error) else None
  {
    hide StateAt, Visible;
    MissedRefresh(cfg, acts, j, q, r);
    AnnouncedForever(cfg, acts, j, i, r);
  }

  /** A returned collection error is the cause why the first measurement of the refresh
      this request had joined failed, and the key was absent at the second Get. */
  lemma ReturnedErrorIsTheCause(cfg: Config, acts: seq<Action>, n: nat, q: nat) returns (m: nat, j: nat, r: nat)
    requires n <= |acts| && q < |StateAt(cfg, acts, n).requests|
    requires ProgressAt(cfg, acts, n, q).Answered? && ProgressAt(cfg, acts, n, q).outcome.CollectFailed?
    ensures m < j < n && JoinedAt(cfg, acts, m, q, r) && MissedAt(cfg, acts, j, q, r)
    ensures SubjectAt(cfg, acts, j, q) == SubjectAt(cfg, acts, n, q)
    ensures r < |StateAt(cfg, acts, j).refreshes|
    ensures StateAt(cfg, acts, j).refreshes[r].first == Failed(ProgressAt(cfg, acts, n, q).outcome.error)
  {
    hide StateAt, Visible, Joined;
    var i := FindAnswer(cfg, acts, n, q);
    j := FindMiss(cfg, acts, i, q);
    r := ProgressAt(cfg, acts, i, q).r;
    m := FindJoin(cfg, acts, j, q);
    JudgedRefresh(cfg, acts, j, i, q, r);
  }

  /** ErrTimeout means that the request's own timer had run for the full timeout, or that
      the first measurement was stored and had lapsed by the second Get. */
  lemma TimeoutIsJustified(cfg: Config, acts: seq<Action>, n: nat, q: nat) returns (i: nat, k: nat, r: nat)
    requires n <= |acts| && q < |StateAt(cfg, acts, n).requests|
    requires ProgressAt(cfg, acts, n, q) == Answered(TimedOut)
    ensures k < i < n
    ensures
      || (&& Makes(cfg, acts, i, q, Expire) && ProgressAt(cfg, acts, i, q).Blocked?
          && ArmedAt(cfg, acts, k, q, r, ProgressAt(cfg, acts, i, q).timer)
          && StateAt(cfg, acts, i).now >= StateAt(cfg, acts, k).now + EffectiveTimeout(cfg))
      || (&& Makes(cfg, acts, i, q, Judge) && MissedAt(cfg, acts, k, q, r) && r < |StateAt(cfg, acts, k).refreshes|
          && var s := StateAt(cfg, acts, k);
             && s.refreshes[r].subject == SubjectAt(cfg, acts, n, q) && s.refreshes[r].first.Stored?
             && LapsedSince(s, KeyOf(s, r), s.refreshes[r].first.at, TTL(s.refreshes[r].subject)))
  {
    hide StateAt, Visible, TTL, LapsedSince, EffectiveTimeout;
    i := FindAnswer(cfg, acts, n, q);
    if ProgressAt(cfg, acts, i, q).Blocked? {
      r := ProgressAt(cfg, acts, i, q).r;
      k := FindArm(cfg, acts, i, q);
    } else {
      r := ProgressAt(cfg, acts, i, q).r;
      k := FindMiss(cfg, acts, i, q);
      JudgedRefresh(cfg, acts, k, i, q, r);
      MissedRefresh(cfg, acts, k, q, r);
      MissedIsLapsed(cfg, acts, k, q, r);
    }
  }

  /** The remaining outcomes: the store's error comes from a failed second Get, the
      context's error from a context that ended while the request was waiting. */
  lemma OtherErrors(cfg: Config, acts: seq<Action>, n: nat, q: nat) returns (i: nat)
    requires n <= |acts| && q < |StateAt(cfg, acts, n).requests|
    requires ProgressAt(cfg, acts, n, q) == Answered(StoreFailed) || ProgressAt(cfg, acts, n, q) == Answered(Cancelled)
    ensures i < n
    ensures if ProgressAt(cfg, acts, n, q) == Answered(StoreFailed)
            then Makes(cfg, acts, i, q, SecondGet(true)) && ProgressAt(cfg, acts, i, q).Rereading?
            else Makes(cfg, acts, i, q, Cancel) && ProgressAt(cfg, acts, i, q).Blocked?
  {
    hide StateAt, Visible;
    i := FindAnswer(cfg, acts, n, q);
  }

  // ---- No request waits for ever ----

  function RequestRank(p: Progress): nat {
    match p
    case Asking => 6
    case Joining => 5
    case Timing(_) => 4
    case Blocked(_, _) => 3
    case Rereading(_) => 2
    case Judging(_) => 1
    case Answered(_) => 0
  }

  /** Whatever happens, a request only comes closer to its answer. */
  lemma RequestsAdvance(cfg: Config, s: State, a: Action, q: nat)
    requires q < |s.requests| && q < |Next(cfg, s, a).requests|
    ensures var p, p' := s.requests[q].progress, Next(cfg, s, a).requests[q].progress;
            p' == p || RequestRank(p') < RequestRank(p)
  {
    hide Next, Visible, Joined;
    NextRequestAt(cfg, s, a, q);
  }

  /** And in a safe state it always has a step that brings it closer, at the latest when
      its timer expires, whatever the collection does. */
  lemma RequestsNeverStick(cfg: Config, s: State, q: nat) returns (move: RequestStep, d: nat)
    requires Safe(cfg, s) && q < |s.requests| && !s.requests[q].progress.Answered?
    ensures var t := Next(cfg, Next(cfg, s, Tick(d)), OfRequest(q, move));
            q < |t.requests| && RequestRank(t.requests[q].progress) < RequestRank(s.requests[q].progress)
    ensures d == 0 || (s.requests[q].progress.Blocked? && s.now + d == s.requests[q].progress.timer)
  {
    hide Visible, EffectiveTimeout, LocalOk, InflightExact, StartsSpaced;
    RequestAt(cfg, s, q);
    d := 0;
    match s.requests[q].progress
    case Asking => move := FirstGet(true);
    case Joining => move := Join;
    case Timing(_) => move := StartTimer;
    case Blocked(_, timer) =>
      move := Expire;
      if s.now < timer {
        d := timer - s.now;
      }
    case Rereading(_) => move := SecondGet(true);
    case Judging(_) => move := Judge;
  }
}
