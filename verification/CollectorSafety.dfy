/** What every reachable state of the statistics collector satisfies: one collection per
    key, the protocol of `done` and `err`, and the distance between collections. */
module CollectorSafety {
  import opened CollectorModel
  import opened Options
  import opened Rates

  // ---- Keys ----

  /** Two subjects share a key only when a container is called "host". */
  lemma KeysApart(a: Subject, b: Subject)
    requires Key(a) == Key(b)
    ensures a == b || a == Container("host") || b == Container("host")
  {
    if a.Container? && b.Container? {
      assert a.id == Key(a)[..|Key(a)| - 6] && b.id == Key(b)[..|Key(b)| - 6];
    } else if a.Container? {
      assert a.id == Key(a)[..|Key(a)| - 6] && HOST_STATS_KEY[..4] == "host";
    } else if b.Container? {
      assert b.id == Key(b)[..|Key(b)| - 6] && HOST_STATS_KEY[..4] == "host";
    }
  }

  // ---- One goroutine ----

  /** The first measurement has not been announced yet. */
  predicate Unannounced(f: Refresh) {
    || f.phase.Spawned?
    || (f.round == 1 && (f.phase.Measuring? || f.phase.Loading? || f.phase.Storing?
                         || f.phase.Returned? || f.phase.Closing?))
  }

  predicate RoundOk(f: Refresh) {
    && f.round <= 2
    && (f.phase.Spawned? <==> f.round == 0)
    && (f.phase.Closing? || f.phase.Closed? || f.phase.Waiting? ==> f.round == 1)
    && (f.phase.Loading? ==> f.subject.Container?)
    && (f.phase.Storing? ==> if f.subject.Host? then f.phase.raw.Figures? else f.phase.raw.Buffer?)
  }

  /** `done` is closed once, between the two measurements; `err` is written at most once,
      before that, and holds the cause of a failed first measurement. */
  predicate ProtocolOk(f: Refresh) {
    && f.done == !Unannounced(f)
    && f.closes == (if f.done then 1 else 0)
    && f.errWrites == (if f.first.Failed? then 1 else 0)
    && f.err == (if f.first.Failed? then Some(f.first.error) else None)
    && (f.done || f.phase.Closing? ==> !f.first.Pending?)
    && (Unannounced(f) && !f.phase.Closing? ==>
          if f.phase.Returned? && f.phase.error.None? then f.first.Stored? else f.first.Pending?)
  }

  predicate TimingOk(cfg: Config, f: Refresh, now: Time) {
    && 0 <= f.started <= now
    && (f.first.Stored? ==> f.started <= f.first.at <= now)
    && (f.round >= 1 ==> f.deadline >= f.started + cfg.interval)
    && (f.phase.Waiting? ==> f.phase.armed >= f.started)
    && (f.round == 2 || f.phase.Removing? || f.phase.Gone? ==> now >= f.started + cfg.interval)
  }

  predicate LocalOk(cfg: Config, f: Refresh, now: Time) {
    RoundOk(f) && ProtocolOk(f) && TimingOk(cfg, f, now) && f.subject != Container("host")
  }

  lemma StepKeepsLocal(cfg: Config, f: Refresh, now: Time, seen: Option<Raw>, step: RefreshStep)
    requires LocalOk(cfg, f, now) && CanStep(cfg, f, now, step)
    ensures LocalOk(cfg, StepRefresh(cfg, f, now, seen, step), now)
    ensures StepRefresh(cfg, f, now, seen, step).subject == f.subject
    ensures StepRefresh(cfg, f, now, seen, step).started == f.started
  {
    hide Trim, Loaded, Decode;
  }

  /** Once `done` is closed nothing a reader of `err` sees changes any more. */
  lemma AnnouncedIsFinal(cfg: Config, f: Refresh, now: Time, seen: Option<Raw>, step: RefreshStep)
    requires LocalOk(cfg, f, now) && CanStep(cfg, f, now, step) && f.done
    ensures var g := StepRefresh(cfg, f, now, seen, step); g.done && g.err == f.err && g.first == f.first
  {
    hide Trim, Loaded, Decode;
  }

  // ---- All goroutines and requests ----

  predicate Live(s: State, i: nat)
    requires i < |s.refreshes|
  {
    !s.refreshes[i].phase.Gone?
  }

  function KeyOf(s: State, i: nat): string
    requires i < |s.refreshes|
  {
    Key(s.refreshes[i].subject)
  }

  predicate AllLocal(cfg: Config, s: State) {
    s.now >= 0 && forall i | 0 <= i < |s.refreshes| :: LocalOk(cfg, s.refreshes[i], s.now)
  }

  /** `inflight` holds exactly the goroutines that have not removed themselves, each under
      its own key. */
  predicate InflightExact(s: State) {
    && (forall k | k in s.inflight ::
          s.inflight[k] < |s.refreshes| && Live(s, s.inflight[k]) && KeyOf(s, s.inflight[k]) == k)
    && (forall i | 0 <= i < |s.refreshes| && Live(s, i) :: KeyOf(s, i) in s.inflight && s.inflight[KeyOf(s, i)] == i)
  }

  /** A request is attached to a refresh of its own subject, and past its wait only when
      that refresh has announced its first measurement. */
  predicate RequestOk(s: State, x: Request) {
    && x.subject != Container("host")
    && match x.progress
       case Timing(r) => r < |s.refreshes| && s.refreshes[r].subject == x.subject
       case Blocked(r, _) => r < |s.refreshes| && s.refreshes[r].subject == x.subject
       case Rereading(r) => r < |s.refreshes| && s.refreshes[r].subject == x.subject && s.refreshes[r].done
       case Judging(r) => r < |s.refreshes| && s.refreshes[r].subject == x.subject && s.refreshes[r].done
       case _ => true
  }

  predicate AllRequests(s: State) {
    forall q | 0 <= q < |s.requests| :: RequestOk(s, s.requests[q])
  }

  /** Two goroutines for one key start at least one interval apart. */
  predicate StartsSpaced(cfg: Config, s: State) {
    forall i, j | 0 <= i < j < |s.refreshes| && KeyOf(s, i) == KeyOf(s, j) ::
      s.refreshes[j].started - s.refreshes[i].started >= cfg.interval
  }

  predicate Safe(cfg: Config, s: State) {
    AllLocal(cfg, s) && InflightExact(s) && AllRequests(s) && StartsSpaced(cfg, s)
  }

  // ---- A goroutine's step ----

  /** The effect of a goroutine's step on the parts that Safe speaks about. */
  lemma RefreshStepShape(cfg: Config, s: State, r: nat, step: RefreshStep)
    requires AllLocal(cfg, s)
    ensures var t := NextRefresh(cfg, s, r, step);
            || t == s
            || (&& r < |s.refreshes| && CanStep(cfg, s.refreshes[r], s.now, step)
                && t.now == s.now && t.requests == s.requests && |t.refreshes| == |s.refreshes|
                && t.refreshes == s.refreshes[r := t.refreshes[r]]
                && t.refreshes[r].subject == s.refreshes[r].subject && t.refreshes[r].started == s.refreshes[r].started
                && LocalOk(cfg, t.refreshes[r], t.now)
                && (s.refreshes[r].done ==> t.refreshes[r].done)
                && (t.refreshes[r].phase.Gone? <==> step.Remove?)
                && t.inflight == if step.Remove? then s.inflight - {KeyOf(s, r)} else s.inflight)
  {
    hide LocalOk, Visible, Written, HistoryOf, Trim, Loaded, Decode;
    if r < |s.refreshes| && CanStep(cfg, s.refreshes[r], s.now, step) {
      var f := s.refreshes[r];
      StepKeepsLocal(cfg, f, s.now, Visible(s, Key(f.subject)), step);
      WrittenKeeps(s, r);
      GoneByRemoval(cfg, f, s.now, Visible(s, Key(f.subject)), step);
    }
  }

  lemma WrittenKeeps(s: State, r: nat)
    requires r < |s.refreshes|
    ensures s.refreshes[r].phase.Storing? ==>
              var t := Written(s, s.refreshes[r]);
              t.now == s.now && t.requests == s.requests && t.refreshes == s.refreshes && t.inflight == s.inflight
  {
  }

  lemma GoneByRemoval(cfg: Config, f: Refresh, now: Time, seen: Option<Raw>, step: RefreshStep)
    requires CanStep(cfg, f, now, step)
    ensures var g := StepRefresh(cfg, f, now, seen, step);
            (g.phase.Gone? <==> step.Remove?) && (f.done ==> g.done)
  {
    hide Trim, Loaded, Decode;
  }

  /** Removing itself, a goroutine deletes its own entry and no other. */
  lemma RemovesOwnEntry(cfg: Config, s: State, r: nat)
    requires InflightExact(s) && r < |s.refreshes| && CanStep(cfg, s.refreshes[r], s.now, Remove)
    ensures KeyOf(s, r) in s.inflight && s.inflight[KeyOf(s, r)] == r
    ensures NextRefresh(cfg, s, r, Remove).inflight == s.inflight - {KeyOf(s, r)}
  {
    assert Live(s, r);
  }

  lemma RefreshKeepsInflight(cfg: Config, s: State, r: nat, step: RefreshStep)
    requires AllLocal(cfg, s) && InflightExact(s)
    ensures InflightExact(NextRefresh(cfg, s, r, step))
  {
    hide NextRefresh, LocalOk, CanStep;
    RefreshStepShape(cfg, s, r, step);
    var t := NextRefresh(cfg, s, r, step);
    if t != s {
      assert Live(s, r) by {
        LiveSteps(cfg, s.refreshes[r], s.now, step);
      }
      forall i | 0 <= i < |t.refreshes| && Live(t, i)
        ensures KeyOf(t, i) in t.inflight && t.inflight[KeyOf(t, i)] == i
      {
        assert Live(s, i);
        assert KeyOf(t, i) == KeyOf(s, i);
      }
      forall k | k in t.inflight
        ensures t.inflight[k] < |t.refreshes| && Live(t, t.inflight[k]) && KeyOf(t, t.inflight[k]) == k
      {
        assert k in s.inflight && t.inflight[k] == s.inflight[k];
      }
    }
  }

  lemma LiveSteps(cfg: Config, f: Refresh, now: Time, step: RefreshStep)
    requires CanStep(cfg, f, now, step)
    ensures !f.phase.Gone?
  {
  }

  lemma RefreshKeepsRest(cfg: Config, s: State, r: nat, step: RefreshStep)
    requires AllLocal(cfg, s) && AllRequests(s) && StartsSpaced(cfg, s)
    ensures var t := NextRefresh(cfg, s, r, step); AllLocal(cfg, t) && AllRequests(t) && StartsSpaced(cfg, t)
  {
    hide NextRefresh, LocalOk, CanStep;
    RefreshStepShape(cfg, s, r, step);
    var t := NextRefresh(cfg, s, r, step);
    if t != s {
      forall q | 0 <= q < |t.requests| ensures RequestOk(t, t.requests[q]) {
        assert RequestOk(s, s.requests[q]);
      }
      forall i, j | 0 <= i < j < |t.refreshes| && KeyOf(t, i) == KeyOf(t, j)
        ensures t.refreshes[j].started - t.refreshes[i].started >= cfg.interval
      {
        assert KeyOf(s, i) == KeyOf(s, j);
      }
    }
  }

  // ---- A request's step ----

  lemma JoinKeeps(cfg: Config, s: State, subject: Subject)
    requires Safe(cfg, s) && subject != Container("host")
    ensures var (t, r) := Joined(s, subject);
            && Safe(cfg, t) && r < |t.refreshes| && t.refreshes[r].subject == subject
            && t.requests == s.requests && s.refreshes <= t.refreshes
  {
    hide LocalOk;
    var key := Key(subject);
    var (t, r) := Joined(s, subject);
    if key in s.inflight {
      LocalSubject(cfg, s, s.inflight[key]);
      KeysApart(s.refreshes[s.inflight[key]].subject, subject);
    } else {
      NewRefreshOk(cfg, subject, s.now);
      forall i | 0 <= i < |s.refreshes| && KeyOf(s, i) == key ensures s.now >= s.refreshes[i].started + cfg.interval {
        assert !Live(s, i);
        GoneIsLater(cfg, s, i);
      }
      forall q | 0 <= q < |t.requests| ensures RequestOk(t, t.requests[q]) {
        assert RequestOk(s, s.requests[q]);
      }
      JoinedInflight(s, subject);
      JoinedSpaced(cfg, s, subject);
    }
  }

  lemma LocalSubject(cfg: Config, s: State, i: nat)
    requires AllLocal(cfg, s) && i < |s.refreshes|
    ensures s.refreshes[i].subject != Container("host")
  {
  }

  lemma GoneIsLater(cfg: Config, s: State, i: nat)
    requires AllLocal(cfg, s) && i < |s.refreshes| && !Live(s, i)
    ensures s.now >= s.refreshes[i].started + cfg.interval
  {
  }

  lemma NewRefreshOk(cfg: Config, subject: Subject, now: Time)
    requires subject != Container("host") && now >= 0
    ensures LocalOk(cfg, Refresh(subject, now, now, Spawned, false, None, 0, Pending, 0, 0), now)
  {
  }

  lemma JoinedInflight(s: State, subject: Subject)
    requires InflightExact(s) && Key(subject) !in s.inflight
    ensures InflightExact(Joined(s, subject).0)
  {
    var t := Joined(s, subject).0;
    forall i | 0 <= i < |t.refreshes| && Live(t, i)
      ensures KeyOf(t, i) in t.inflight && t.inflight[KeyOf(t, i)] == i
    {
      if i < |s.refreshes| {
        assert Live(s, i) && KeyOf(t, i) == KeyOf(s, i);
      }
    }
    forall k | k in t.inflight
      ensures t.inflight[k] < |t.refreshes| && Live(t, t.inflight[k]) && KeyOf(t, t.inflight[k]) == k
    {
      if k != Key(subject) {
        assert k in s.inflight;
      }
    }
  }

  lemma JoinedSpaced(cfg: Config, s: State, subject: Subject)
    requires StartsSpaced(cfg, s) && Key(subject) !in s.inflight
    requires forall i | 0 <= i < |s.refreshes| && KeyOf(s, i) == Key(subject) ::
               s.now >= s.refreshes[i].started + cfg.interval
    ensures StartsSpaced(cfg, Joined(s, subject).0)
  {
    var t := Joined(s, subject).0;
    forall i, j | 0 <= i < j < |t.refreshes| && KeyOf(t, i) == KeyOf(t, j)
      ensures t.refreshes[j].started - t.refreshes[i].started >= cfg.interval
    {
      assert KeyOf(s, i) == KeyOf(t, i);
      if j < |s.refreshes| {
        assert KeyOf(s, j) == KeyOf(t, j);
      }
    }
  }

  lemma ProgressKeeps(cfg: Config, s: State, q: nat, p: Progress)
    requires Safe(cfg, s) && q < |s.requests| && RequestOk(s, s.requests[q].(progress := p))
    ensures Safe(cfg, SetProgress(s, q, p))
  {
    hide LocalOk;
    var t := SetProgress(s, q, p);
    forall i | 0 <= i < |t.requests| ensures RequestOk(t, t.requests[i]) {
      assert i != q ==> RequestOk(s, s.requests[i]);
    }
    assert InflightExact(t) by {
      assert forall i | 0 <= i < |t.refreshes| :: Live(t, i) == Live(s, i) && KeyOf(t, i) == KeyOf(s, i);
    }
    assert StartsSpaced(cfg, t) by {
      assert forall i | 0 <= i < |t.refreshes| :: KeyOf(t, i) == KeyOf(s, i);
    }
  }

  lemma RequestKeepsSafe(cfg: Config, s: State, q: nat, move: RequestStep)
    requires Safe(cfg, s)
    ensures Safe(cfg, NextRequest(cfg, s, q, move))
  {
    hide Safe, Visible, Joined;
    if q < |s.requests| {
      var x := s.requests[q];
      RequestAt(cfg, s, q);
      if move.Join? {
        if x.progress.Joining? {
          var (t, r) := Joined(s, x.subject);
          JoinKeeps(cfg, s, x.subject);
          ProgressKeeps(cfg, t, q, Timing(r));
        }
      } else {
        ProgressKeeps(cfg, s, q, StepRequest(cfg, s, x, move));
      }
    }
  }

  lemma RequestAt(cfg: Config, s: State, q: nat)
    requires Safe(cfg, s) && q < |s.requests|
    ensures RequestOk(s, s.requests[q])
  {
  }

  // ---- What an action does to one goroutine ----

  /** Action a is a step that goroutine r can take. */
  predicate Moves(cfg: Config, s: State, a: Action, r: nat) {
    a.OfRefresh? && a.r == r && r < |s.refreshes| && CanStep(cfg, s.refreshes[r], s.now, a.step)
  }

  /** Its own steps change a goroutine, nothing else does; new ones have not begun. */
  lemma NextRefreshAt(cfg: Config, s: State, a: Action, r: nat)
    requires r < |Next(cfg, s, a).refreshes|
    ensures var f := Next(cfg, s, a).refreshes[r];
            if r >= |s.refreshes| then f.phase.Spawned? && f.first.Pending?
            else if Moves(cfg, s, a, r)
            then f == StepRefresh(cfg, s.refreshes[r], s.now, Visible(s, KeyOf(s, r)), a.step)
            else f == s.refreshes[r]
  {
    hide StepRefresh, CanStep, Visible, StepRequest;
  }

  // ---- Every run ----

  lemma TickKeeps(cfg: Config, s: State, d: nat)
    requires Safe(cfg, s)
    ensures Safe(cfg, s.(now := s.now + d))
  {
    var t := s.(now := s.now + d);
    assert forall i | 0 <= i < |t.refreshes| :: Live(t, i) == Live(s, i) && KeyOf(t, i) == KeyOf(s, i);
    assert forall q | 0 <= q < |t.requests| :: RequestOk(s, s.requests[q]);
    forall i | 0 <= i < |t.refreshes| ensures LocalOk(cfg, t.refreshes[i], t.now) {
      assert LocalOk(cfg, s.refreshes[i], s.now);
    }
  }

  /** Safety does not look at the store. */
  lemma StoreKeeps(cfg: Config, s: State, store: map<string, Entry>)
    requires Safe(cfg, s)
    ensures Safe(cfg, s.(store := store))
  {
    hide LocalOk;
    var t := s.(store := store);
    assert forall i | 0 <= i < |t.refreshes| :: Live(t, i) == Live(s, i) && KeyOf(t, i) == KeyOf(s, i);
    assert forall q | 0 <= q < |t.requests| :: RequestOk(s, s.requests[q]);
  }

  lemma ArriveKeeps(cfg: Config, s: State, subject: Subject)
    requires Safe(cfg, s) && subject != Container("host")
    ensures Safe(cfg, s.(requests := s.requests + [Request(subject, Asking)]))
  {
    hide LocalOk;
    var t := s.(requests := s.requests + [Request(subject, Asking)]);
    assert forall i | 0 <= i < |t.refreshes| :: Live(t, i) == Live(s, i) && KeyOf(t, i) == KeyOf(s, i);
    forall q | 0 <= q < |t.requests| ensures RequestOk(t, t.requests[q]) {
      assert q < |s.requests| ==> RequestOk(s, s.requests[q]);
    }
  }

  lemma NextKeepsSafe(cfg: Config, s: State, a: Action)
    requires Safe(cfg, s)
    ensures Safe(cfg, Next(cfg, s, a))
  {
    hide NextRefresh, NextRequest, LocalOk, InflightExact, AllRequests, StartsSpaced, AllLocal;
    match a
    case Tick(d) => TickKeeps(cfg, s, d);
    case Damage(key, text, expires) =>
      StoreKeeps(cfg, s, s.store[key := Entry(Unreadable(text), expires)]);
    case Arrive(subject) =>
      if subject != Container("host") {
        ArriveKeeps(cfg, s, subject);
      }
    case OfRefresh(r, step) =>
      RefreshKeepsInflight(cfg, s, r, step);
      RefreshKeepsRest(cfg, s, r, step);
    case OfRequest(q, move) => RequestKeepsSafe(cfg, s, q, move);
  }

  /** Every state of every run is safe. */
  lemma {:induction false} Reachable(cfg: Config, acts: seq<Action>, n: nat)
    requires n <= |acts|
    ensures Safe(cfg, StateAt(cfg, acts, n))
  {
    hide Next;
    if n > 0 {
      Reachable(cfg, acts, n - 1);
      NextKeepsSafe(cfg, StateAt(cfg, acts, n - 1), acts[n - 1]);
    }
  }

  // ---- Consequences ----

  /** In every reachable state each key has at most one goroutine that has not deleted its
      entry, and the entry is exactly that goroutine. */
  lemma SingleFlight(cfg: Config, acts: seq<Action>, n: nat, i: nat, j: nat)
    requires n <= |acts|
    requires var s := StateAt(cfg, acts, n);
             i < |s.refreshes| && j < |s.refreshes| && Live(s, i) && Live(s, j) && KeyOf(s, i) == KeyOf(s, j)
    ensures i == j && KeyOf(StateAt(cfg, acts, n), i) in StateAt(cfg, acts, n).inflight
    ensures StateAt(cfg, acts, n).inflight[KeyOf(StateAt(cfg, acts, n), i)] == i
  {
    hide Next, LocalOk;
    Reachable(cfg, acts, n);
  }

  /** No step changes what a closed `done` has announced, whoever takes it. */
  lemma AnnouncedStays(cfg: Config, s: State, a: Action, r: nat)
    requires Safe(cfg, s) && r < |s.refreshes| && s.refreshes[r].done
    ensures var t := Next(cfg, s, a);
            && r < |t.refreshes| && t.refreshes[r].done && t.refreshes[r].subject == s.refreshes[r].subject
            && t.refreshes[r].err == s.refreshes[r].err && t.refreshes[r].first == s.refreshes[r].first
  {
    hide LocalOk, InflightExact, AllRequests, StartsSpaced, Visible, StepRefresh, CanStep;
    match a
    case OfRefresh(i, step) =>
      RefreshStepShape(cfg, s, i, step);
      if i == r && CanStep(cfg, s.refreshes[i], s.now, step) {
        AnnouncedIsFinalAt(cfg, s, i, step);
      }
    case _ =>
  }

  lemma AnnouncedIsFinalAt(cfg: Config, s: State, i: nat, step: RefreshStep)
    requires AllLocal(cfg, s) && i < |s.refreshes| && s.refreshes[i].done && CanStep(cfg, s.refreshes[i], s.now, step)
    ensures var g := StepRefresh(cfg, s.refreshes[i], s.now, Visible(s, KeyOf(s, i)), step);
            g.done && g.err == s.refreshes[i].err && g.first == s.refreshes[i].first
  {
    hide LocalOk, StepRefresh;
    AnnouncedIsFinal(cfg, s.refreshes[i], s.now, Visible(s, KeyOf(s, i)), step);
  }

  lemma {:induction false} AnnouncedForever(cfg: Config, acts: seq<Action>, n: nat, m: nat, r: nat)
    requires n <= m <= |acts|
    requires r < |StateAt(cfg, acts, n).refreshes| && StateAt(cfg, acts, n).refreshes[r].done
    ensures var s, t := StateAt(cfg, acts, n), StateAt(cfg, acts, m);
            && r < |t.refreshes| && t.refreshes[r].done && t.refreshes[r].subject == s.refreshes[r].subject
            && t.refreshes[r].err == s.refreshes[r].err && t.refreshes[r].first == s.refreshes[r].first
  {
    hide Next, Safe;
    if n < m {
      AnnouncedForever(cfg, acts, n, m - 1, r);
      Reachable(cfg, acts, m - 1);
      AnnouncedStays(cfg, StateAt(cfg, acts, m - 1), acts[m - 1], r);
    }
  }

  /** Every read of `err` follows the close, which happened once and after the first
      measurement; and whoever reads the `err` of a refresh, and whenever, reads the cause
      of that first measurement's failure, or nothing if it succeeded. */
  lemma WaitersReadTheCause(cfg: Config, acts: seq<Action>, n: nat, q: nat, m: nat, p: nat)
    requires n <= m <= |acts|
    requires var s, t := StateAt(cfg, acts, n), StateAt(cfg, acts, m);
             && q < |s.requests| && s.requests[q].progress.Judging?
             && p < |t.requests| && t.requests[p].progress.Judging?
             && t.requests[p].progress.r == s.requests[q].progress.r
    ensures var s, t := StateAt(cfg, acts, n), StateAt(cfg, acts, m);
            var r := s.requests[q].progress.r;
            && r < |s.refreshes| && r < |t.refreshes|
            && s.refreshes[r].closes == 1 && t.refreshes[r].closes == 1 && t.refreshes[r].errWrites <= 1
            && !s.refreshes[r].first.Pending?
            && s.refreshes[r].err == t.refreshes[r].err
            && s.refreshes[r].err == (if s.refreshes[r].first.Failed? then Some(s.refreshes[r].first.error) else None)
  {
    hide Next;
    var s, t := StateAt(cfg, acts, n), StateAt(cfg, acts, m);
    Reachable(cfg, acts, n);
    Reachable(cfg, acts, m);
    assert RequestOk(s, s.requests[q]);
    var r := s.requests[q].progress.r;
    assert LocalOk(cfg, s.refreshes[r], s.now);
    AnnouncedForever(cfg, acts, n, m, r);
    assert LocalOk(cfg, t.refreshes[r], t.now);
  }

  // ---- How often is collected ----

  /** The refreshes of one key, in the order in which they started. */
  function StartsOf(s: State, key: string, n: nat): seq<nat>
    requires n <= |s.refreshes|
  {
    if n == 0 then [] else StartsOf(s, key, n - 1) + (if KeyOf(s, n - 1) == key then [n - 1] else [])
  }

  predicate StartsOk(s: State, key: string, idx: seq<nat>, n: nat)
    requires n <= |s.refreshes|
  {
    && (forall k | 0 <= k < |idx| :: idx[k] < n && KeyOf(s, idx[k]) == key)
    && (forall i, j | 0 <= i < j < |idx| :: idx[i] < idx[j])
  }

  lemma {:induction false} StartsInOrder(s: State, key: string, n: nat)
    requires n <= |s.refreshes|
    ensures StartsOk(s, key, StartsOf(s, key, n), n)
  {
    if n > 0 {
      StartsInOrder(s, key, n - 1);
      var before, idx := StartsOf(s, key, n - 1), StartsOf(s, key, n);
      forall k | 0 <= k < |idx| ensures idx[k] < n && KeyOf(s, idx[k]) == key {
        assert k < |before| ==> idx[k] == before[k];
      }
    }
  }

  /** Measurements begun for a key. */
  function Collections(s: State, key: string, n: nat): nat
    requires n <= |s.refreshes|
  {
    if n == 0 then 0 else Collections(s, key, n - 1) + (if KeyOf(s, n - 1) == key then s.refreshes[n - 1].round else 0)
  }

  lemma {:induction false} TwoPerStart(cfg: Config, s: State, key: string, n: nat)
    requires AllLocal(cfg, s) && n <= |s.refreshes|
    ensures Collections(s, key, n) <= 2 * |StartsOf(s, key, n)|
  {
    hide ProtocolOk, TimingOk;
    if n > 0 {
      TwoPerStart(cfg, s, key, n - 1);
      assert LocalOk(cfg, s.refreshes[n - 1], s.now);
    }
  }

  /** However many requests arrive: by the time T a key has seen at most T / interval + 1
      collection starts, and twice as many measurements. */
  lemma CollectionRate(cfg: Config, acts: seq<Action>, n: nat, key: string)
    requires n <= |acts| && cfg.interval > 0
    ensures var s := StateAt(cfg, acts, n);
            && s.now >= 0
            && |StartsOf(s, key, |s.refreshes|)| <= s.now / cfg.interval + 1
            && Collections(s, key, |s.refreshes|) <= 2 * (s.now / cfg.interval + 1)
  {
    hide Next, InflightExact, AllRequests, RoundOk, ProtocolOk;
    var s := StateAt(cfg, acts, n);
    Reachable(cfg, acts, n);
    var idx := StartsOf(s, key, |s.refreshes|);
    StartsInOrder(s, key, |s.refreshes|);
    var times := seq(|idx|, i requires 0 <= i < |idx| => s.refreshes[idx[i]].started);
    forall i | 0 < i < |times| ensures times[i] - times[i - 1] >= cfg.interval {
      assert idx[i - 1] < idx[i] && KeyOf(s, idx[i - 1]) == KeyOf(s, idx[i]);
    }
    forall t | t in times ensures 0 <= t <= 0 + s.now {
      var i :| 0 <= i < |times| && times[i] == t;
      assert LocalOk(cfg, s.refreshes[idx[i]], s.now);
    }
    SpacedCount(times, cfg.interval, 0, s.now);
    TwoPerStart(cfg, s, key, |s.refreshes|);
  }

  // ---- Every goroutine ends ----

  /** Steps left, at most. */
  function Rank(f: Refresh): nat {
    match f.phase
    case Spawned => 14
    case Measuring => if f.round == 1 then 13 else 5
    case Loading(_) => if f.round == 1 then 12 else 4
    case Storing(_) => if f.round == 1 then 11 else 3
    case Returned(_) => if f.round == 1 then 10 else 2
    case Closing => 9
    case Closed => 8
    case Waiting(_) => 7
    case Removing => 1
    case Gone => 0
  }

  /** Each of its steps brings a goroutine closer to its end. */
  lemma StepsDecrease(cfg: Config, f: Refresh, now: Time, seen: Option<Raw>, step: RefreshStep)
    requires LocalOk(cfg, f, now) && CanStep(cfg, f, now, step)
    ensures Rank(StepRefresh(cfg, f, now, seen, step)) < Rank(f)
  {
    hide Trim, Loaded, Decode, ProtocolOk, TimingOk;
  }

  /** And as long as its entry is there it has a next step, at the latest when the interval
      has passed: no goroutine gets stuck. */
  lemma NeverStuck(cfg: Config, f: Refresh, now: Time) returns (step: RefreshStep, d: nat)
    requires !f.phase.Gone?
    ensures CanStep(cfg, f, now + d, step)
    ensures !f.phase.Waiting? ==> d == 0
    ensures f.phase.Waiting? ==> d == 0 || now + d == f.phase.armed + cfg.interval
  {
    d := 0;
    match f.phase
    case Spawned => step := Begin;
    case Measuring => step := Measure(NotMeasured(""));
    case Loading(_) => step := Load(true);
    case Storing(_) => step := Store(None);
    case Returned(_) => step := Report;
    case Closing => step := Close;
    case Closed => step := Arm;
    case Waiting(armed) =>
      step := IntervalOver;
      if now < armed + cfg.interval {
        d := armed + cfg.interval - now;
      }
    case Removing => step := Remove;
  }
}
