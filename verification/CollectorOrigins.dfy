/** Where the values, the errors and the instants come from that the statistics collector
    works with: each goes back to one action of the run. */
module CollectorOrigins {
  import opened CollectorModel
  import opened CollectorSafety
  import opened CollectorBuffers
  import opened CollectorOutcomes
  import opened Options

  // ---- Names and spans, spelled out ----

  /** What the consumers of the store and the callers rely on; spans are in nanoseconds. */
  lemma Spelled(cfg: Config, id: string)
    ensures Key(Host) == "host_stats" && Key(Container(id)) == id + "_stats"
    ensures TTL(Host) == 10_000_000_000 && TTL(Container(id)) == 60_000_000_000
    ensures MAX_SAMPLES == 3 && DEFAULT_REFRESH_INTERVAL == 5_000_000_000
    ensures EffectiveTimeout(cfg) == if cfg.timeout > 0 then cfg.timeout else 60_000_000_000
  {
  }

  /** A context that ends answers a waiting request, and no other. */
  lemma CancelEndsWait(cfg: Config, s: State, q: nat)
    requires q < |s.requests|
    ensures var t := Next(cfg, s, OfRequest(q, Cancel));
            && q < |t.requests|
            && t.requests[q].progress
               == if s.requests[q].progress.Blocked? then Answered(Cancelled) else s.requests[q].progress
  {
  }

  /** A second Get that fails answers with the store's error. */
  lemma FailedGetEndsRequest(cfg: Config, s: State, q: nat)
    requires q < |s.requests|
    ensures var t := Next(cfg, s, OfRequest(q, SecondGet(true)));
            && q < |t.requests|
            && t.requests[q].progress
               == if s.requests[q].progress.Rereading? then Answered(StoreFailed) else s.requests[q].progress
  {
  }

  // ---- The clock ----

  lemma {:induction false} ClockAdvances(cfg: Config, acts: seq<Action>, i: nat, n: nat)
    requires i <= n <= |acts|
    ensures StateAt(cfg, acts, i).now <= StateAt(cfg, acts, n).now
  {
    hide Next;
    if i < n {
      ClockAdvances(cfg, acts, i, n - 1);
      NowMoves(cfg, StateAt(cfg, acts, n - 1), acts[n - 1]);
    }
  }

  lemma NowMoves(cfg: Config, s: State, a: Action)
    ensures s.now <= Next(cfg, s, a).now
  {
    hide StepRefresh, StepRequest, CanStep, Visible;
  }

  // ---- Entries of the store ----

  /** Action i is a successful Set of the key. */
  predicate Sets(cfg: Config, acts: seq<Action>, i: nat, key: string)
    requires i < |acts|
  {
    && acts[i].OfRefresh? && acts[i].step == Store(None)
    && Moves(cfg, StateAt(cfg, acts, i), acts[i], acts[i].r)
    && KeyOf(StateAt(cfg, acts, i), acts[i].r) == key
  }

  predicate Writes(cfg: Config, acts: seq<Action>, i: nat, key: string)
    requires i < |acts|
  {
    Sets(cfg, acts, i, key) || (acts[i].Damage? && acts[i].key == key)
  }

  /** An action that does not write the key leaves its entry alone. */
  lemma EntryStays(cfg: Config, s: State, a: Action, key: string)
    requires !(&& a.OfRefresh? && a.step == Store(None) && Moves(cfg, s, a, a.r) && KeyOf(s, a.r) == key)
    requires !(a.Damage? && a.key == key)
    ensures key in Next(cfg, s, a).store <==> key in s.store
    ensures key in s.store ==> Next(cfg, s, a).store[key] == s.store[key]
  {
    hide Next;
    if a.OfRefresh? && a.step == Store(None) && Moves(cfg, s, a, a.r) {
      StoringAt(cfg, s, a.r);
      SetShape(cfg, s, a.r);
      NextIsRefresh(cfg, s, a.r, a.step);
    } else {
      QuietAction(cfg, s, a, key);
    }
  }

  lemma NextIsRefresh(cfg: Config, s: State, r: nat, step: RefreshStep)
    ensures Next(cfg, s, OfRefresh(r, step)) == NextRefresh(cfg, s, r, step)
  {
  }

  /** The last write of a key is where its entry comes from. */
  lemma {:induction false} LastWrite(cfg: Config, acts: seq<Action>, n: nat, key: string) returns (i: nat)
    requires n <= |acts| && key in StateAt(cfg, acts, n).store
    ensures i < n && Writes(cfg, acts, i, key)
    ensures forall j: nat | i < j < n :: !Writes(cfg, acts, j, key)
    ensures key in StateAt(cfg, acts, i + 1).store
    ensures StateAt(cfg, acts, n).store[key] == StateAt(cfg, acts, i + 1).store[key]
  {
    hide Next, Moves, KeyOf;
    assert n > 0 by {
      NothingStored(cfg, acts, key);
    }
    if Writes(cfg, acts, n - 1, key) {
      i := n - 1;
    } else {
      EntryStays(cfg, StateAt(cfg, acts, n - 1), acts[n - 1], key);
      i := LastWrite(cfg, acts, n - 1, key);
    }
  }

  lemma NothingStored(cfg: Config, acts: seq<Action>, key: string)
    ensures key !in StateAt(cfg, acts, 0).store
  {
  }

  /** Action i is a successful Set, by a goroutine of the subject, of what that goroutine had
      measured last: the figures themselves, or a buffer that ends with the sample. */
  predicate StoresMeasured(cfg: Config, acts: seq<Action>, i: nat, subject: Subject, raw: Raw)
    requires i < |acts|
  {
    && Sets(cfg, acts, i, Key(subject))
    && StateAt(cfg, acts, i).refreshes[acts[i].r].subject == subject
    && var measured := LastMeasured(cfg, acts, i, acts[i].r);
       match raw
       case Figures(x) => subject.Host? && measured == [x]
       case Buffer(xs) => subject.Container? && xs != [] && measured == [xs[|xs| - 1]]
       case Unreadable(_) => false
  }

  /** What one successful Set leaves behind. */
  lemma SetStores(cfg: Config, acts: seq<Action>, i: nat, subject: Subject)
    requires i < |acts| && subject != Container("host") && Sets(cfg, acts, i, Key(subject))
    ensures var s, t := StateAt(cfg, acts, i), StateAt(cfg, acts, i + 1);
            && Key(subject) in t.store && t.store[Key(subject)].expires == s.now + TTL(subject)
            && StoresMeasured(cfg, acts, i, subject, t.store[Key(subject)].raw)
  {
    hide Next, StateAt, Key, TTL, Carries, InflightExact, AllRequests, StartsSpaced, ProtocolOk, TimingOk;
    var s, r := StateAt(cfg, acts, i), acts[i].r;
    StateNext(cfg, acts, i);
    NextIsRefresh(cfg, s, r, acts[i].step);
    StoringAt(cfg, s, r);
    SetShape(cfg, s, r);
    Reachable(cfg, acts, i);
    assert LocalOk(cfg, s.refreshes[r], s.now);
    KeysApart(s.refreshes[r].subject, subject);
    CarriesLast(cfg, acts, i, r);
    CarriedStored(s.refreshes[r], LastMeasured(cfg, acts, i, r));
  }

  lemma CarriedStored(f: Refresh, measured: seq<Sample>)
    requires f.phase.Storing? && Carries(f, measured)
    ensures f.phase.raw.Figures? ==> measured == [f.phase.raw.text]
    ensures f.phase.raw.Buffer? ==>
              f.phase.raw.samples != [] && measured == [f.phase.raw.samples[|f.phase.raw.samples| - 1]]
  {
  }

  lemma StateNext(cfg: Config, acts: seq<Action>, i: nat)
    requires i < |acts|
    ensures StateAt(cfg, acts, i + 1) == Next(cfg, StateAt(cfg, acts, i), acts[i])
  {
  }

  /** Every readable entry was stored by the last write of its key, a successful Set of what
      a goroutine of the subject had measured, with the expiry counted from then. */
  lemma EntryWasMeasured(cfg: Config, acts: seq<Action>, n: nat, subject: Subject) returns (i: nat)
    requires n <= |acts| && subject != Container("host") && Key(subject) in StateAt(cfg, acts, n).store
    requires !StateAt(cfg, acts, n).store[Key(subject)].raw.Unreadable?
    ensures i < n && StoresMeasured(cfg, acts, i, subject, StateAt(cfg, acts, n).store[Key(subject)].raw)
    ensures forall j: nat | i < j < n :: !Writes(cfg, acts, j, Key(subject))
    ensures StateAt(cfg, acts, n).store[Key(subject)].expires
         == StateAt(cfg, acts, i).now + if subject.Host? then 10_000_000_000 else 60_000_000_000
  {
    hide StateAt, Key, Sets, StoresMeasured;
    i := LastWrite(cfg, acts, n, Key(subject));
    if Sets(cfg, acts, i, Key(subject)) {
      SetStores(cfg, acts, i, subject);
    } else {
      StateNext(cfg, acts, i);
    }
  }

  /** So a returned value is what a goroutine of the subject had measured, stored by the last
      write before the request's Get, and at that Get less than its lifetime old. */
  lemma ReturnedValueWasMeasured(cfg: Config, acts: seq<Action>, n: nat, q: nat) returns (i: nat, g: nat)
    requires n <= |acts| && q < |StateAt(cfg, acts, n).requests|
    requires ProgressAt(cfg, acts, n, q).Answered? && ProgressAt(cfg, acts, n, q).outcome.Value?
    requires !ProgressAt(cfg, acts, n, q).outcome.raw.Unreadable?
    ensures i < g < n && (Makes(cfg, acts, g, q, FirstGet(false)) || Makes(cfg, acts, g, q, SecondGet(false)))
    ensures StoresMeasured(cfg, acts, i, SubjectAt(cfg, acts, n, q), ProgressAt(cfg, acts, n, q).outcome.raw)
    ensures forall j: nat | i < j < g :: !Writes(cfg, acts, j, Key(SubjectAt(cfg, acts, n, q)))
    ensures var age := StateAt(cfg, acts, g).now - StateAt(cfg, acts, i).now;
            0 <= age < if SubjectAt(cfg, acts, n, q).Host? then 10_000_000_000 else 60_000_000_000
  {
    hide StateAt, Key, StoresMeasured, Writes;
    g := ReturnedValueWasSeen(cfg, acts, n, q);
    Reachable(cfg, acts, n);
    SubjectIsNoHostContainer(cfg, StateAt(cfg, acts, n), q);
    i := EntryWasMeasured(cfg, acts, g, SubjectAt(cfg, acts, n, q));
    ClockAdvances(cfg, acts, i, g);
  }

  lemma SubjectIsNoHostContainer(cfg: Config, s: State, q: nat)
    requires Safe(cfg, s) && q < |s.requests|
    ensures s.requests[q].subject != Container("host")
  {
    hide AllLocal, InflightExact, StartsSpaced;
    RequestAt(cfg, s, q);
  }

  // ---- What became of the first measurement ----

  /** Action i is a step that goroutine r takes in the given round. */
  predicate StepsIn(cfg: Config, acts: seq<Action>, i: nat, r: nat, round: nat) {
    && i < |acts| && Moves(cfg, StateAt(cfg, acts, i), acts[i], r)
    && StateAt(cfg, acts, i).refreshes[r].round == round
  }

  /** The step by which a collection fails: measuring, or storing. */
  predicate FailsWith(step: RefreshStep, e: Error) {
    step == Measure(NotMeasured(e)) || step == Store(Some(e))
  }

  /** Goroutine r is there before action n, and how that action leaves it. */
  lemma Stepped(cfg: Config, acts: seq<Action>, n: nat, r: nat)
    requires 0 < n <= |acts| && r < |StateAt(cfg, acts, n).refreshes|
    ensures var s, f := StateAt(cfg, acts, n - 1), StateAt(cfg, acts, n).refreshes[r];
            if r >= |s.refreshes| then f.phase.Spawned? && f.first.Pending?
            else if Moves(cfg, s, acts[n - 1], r)
            then f == StepRefresh(cfg, s.refreshes[r], s.now, Visible(s, KeyOf(s, r)), acts[n - 1].step)
            else f == s.refreshes[r]
  {
    hide Next, StepRefresh, Visible, Moves;
    NextRefreshAt(cfg, StateAt(cfg, acts, n - 1), acts[n - 1], r);
  }

  lemma NobodyYet(cfg: Config, acts: seq<Action>, n: nat, r: nat)
    requires n <= |acts| && r < |StateAt(cfg, acts, n).refreshes|
    ensures n > 0
  {
  }

  lemma FailingSteps(cfg: Config, f: Refresh, now: Time, seen: Option<Raw>, step: RefreshStep)
    requires CanStep(cfg, f, now, step)
    ensures var g := StepRefresh(cfg, f, now, seen, step);
            && (g.phase.Returned? && g.phase.error.Some? ==> FailsWith(step, g.phase.error.value) && g.round == f.round)
            && (g.first != f.first ==>
                  || (step == Store(None) && f.round == 1 && g.first == Stored(now))
                  || (step == Report && f.round == 1 && f.phase.Returned? && f.phase.error.Some?
                      && g.first == Failed(f.phase.error.value)))
  {
    hide Trim, Loaded;
  }

  lemma {:induction false} FailedStep(cfg: Config, acts: seq<Action>, n: nat, r: nat) returns (i: nat)
    requires n <= |acts| && r < |StateAt(cfg, acts, n).refreshes|
    requires var f := StateAt(cfg, acts, n).refreshes[r]; f.phase.Returned? && f.phase.error.Some?
    ensures var f := StateAt(cfg, acts, n).refreshes[r];
            i < n && StepsIn(cfg, acts, i, r, f.round) && FailsWith(acts[i].step, f.phase.error.value)
  {
    hide StateAt, StepRefresh, Visible, CanStep, FailsWith;
    NobodyYet(cfg, acts, n, r);
    Stepped(cfg, acts, n, r);
    var s := StateAt(cfg, acts, n - 1);
    if Moves(cfg, s, acts[n - 1], r) {
      FailingSteps(cfg, s.refreshes[r], s.now, Visible(s, KeyOf(s, r)), acts[n - 1].step);
      i := n - 1;
    } else {
      i := FailedStep(cfg, acts, n - 1, r);
    }
  }

  /** The record of the first measurement is true: if it says stored, the goroutine's Set of
      the first round succeeded at that instant; if it says failed, that round failed with
      that very error, in measuring or in storing. */
  lemma {:induction false} FirstHappened(cfg: Config, acts: seq<Action>, n: nat, r: nat) returns (i: nat)
    requires n <= |acts| && r < |StateAt(cfg, acts, n).refreshes|
    requires !StateAt(cfg, acts, n).refreshes[r].first.Pending?
    ensures i < n && StepsIn(cfg, acts, i, r, 1)
    ensures match StateAt(cfg, acts, n).refreshes[r].first
            case Pending => true
            case Stored(at) => acts[i].step == Store(None) && StateAt(cfg, acts, i).now == at
            case Failed(e) => FailsWith(acts[i].step, e)
  {
    hide StateAt, StepRefresh, Visible, CanStep, FailsWith;
    NobodyYet(cfg, acts, n, r);
    Stepped(cfg, acts, n, r);
    var s, f := StateAt(cfg, acts, n - 1), StateAt(cfg, acts, n).refreshes[r];
    if r < |s.refreshes| && f.first == s.refreshes[r].first {
      i := FirstHappened(cfg, acts, n - 1, r);
    } else {
      FailingSteps(cfg, s.refreshes[r], s.now, Visible(s, KeyOf(s, r)), acts[n - 1].step);
      if f.first.Stored? {
        i := n - 1;
      } else {
        i := FailedStep(cfg, acts, n - 1, r);
      }
    }
  }

  /** So a returned collection error is the error with which the goroutine that the request
      had joined failed in its first round. */
  lemma ReturnedErrorHappened(cfg: Config, acts: seq<Action>, n: nat, q: nat) returns (m: nat, i: nat, r: nat)
    requires n <= |acts| && q < |StateAt(cfg, acts, n).requests|
    requires ProgressAt(cfg, acts, n, q).Answered? && ProgressAt(cfg, acts, n, q).outcome.CollectFailed?
    ensures m < n && JoinedAt(cfg, acts, m, q, r)
    ensures i < n && StepsIn(cfg, acts, i, r, 1) && FailsWith(acts[i].step, ProgressAt(cfg, acts, n, q).outcome.error)
  {
    hide StateAt, FailsWith, JoinedAt, MissedAt, StepsIn;
    var j: nat;
    m, j, r := ReturnedErrorIsTheCause(cfg, acts, n, q);
    i := FirstHappened(cfg, acts, j, r);
  }

  // ---- The second round ----

  lemma DeadlineSteps(cfg: Config, f: Refresh, now: Time, seen: Option<Raw>, step: RefreshStep)
    requires RoundOk(f) && CanStep(cfg, f, now, step)
    ensures var g := StepRefresh(cfg, f, now, seen, step);
            && (g.round >= 1 && f.round == 0 ==> step == Begin && g.deadline == now + cfg.interval + 60_000_000_000)
            && (f.round >= 1 ==> g.deadline == f.deadline && g.round >= f.round)
            && (step == IntervalOver ==> g.phase == Measuring && g.round == 2)
            && (f.phase.Removing? || f.phase.Gone? ==> g.round == f.round)
            && (g.round == 1 && (g.phase.Removing? || g.phase.Gone?) && !f.phase.Removing? ==>
                  step == ContextOver && now >= f.deadline)
  {
    hide Trim, Loaded;
  }

  /** A collection's context runs from its first step, for the interval and a minute. */
  lemma {:induction false} ContextBegan(cfg: Config, acts: seq<Action>, n: nat, r: nat) returns (b: nat)
    requires n <= |acts| && r < |StateAt(cfg, acts, n).refreshes| && StateAt(cfg, acts, n).refreshes[r].round >= 1
    ensures b < n && StepsIn(cfg, acts, b, r, 0) && acts[b].step == Begin
    ensures StateAt(cfg, acts, n).refreshes[r].deadline == StateAt(cfg, acts, b).now + cfg.interval + 60_000_000_000
  {
    hide StateAt, StepRefresh, Visible, CanStep, RoundOk;
    NobodyYet(cfg, acts, n, r);
    Stepped(cfg, acts, n, r);
    RoundAt(cfg, acts, n, r);
    SpawnedRound(StateAt(cfg, acts, n).refreshes[r]);
    var s := StateAt(cfg, acts, n - 1);
    RoundAt(cfg, acts, n - 1, r);
    if Moves(cfg, s, acts[n - 1], r) {
      DeadlineSteps(cfg, s.refreshes[r], s.now, Visible(s, KeyOf(s, r)), acts[n - 1].step);
    }
    if s.refreshes[r].round == 0 {
      b := n - 1;
    } else {
      b := ContextBegan(cfg, acts, n - 1, r);
    }
  }

  lemma RoundAt(cfg: Config, acts: seq<Action>, n: nat, r: nat)
    requires n <= |acts|
    ensures r < |StateAt(cfg, acts, n).refreshes| ==> RoundOk(StateAt(cfg, acts, n).refreshes[r])
  {
    hide StateAt, RoundOk, InflightExact, AllRequests, StartsSpaced, ProtocolOk, TimingOk;
    Reachable(cfg, acts, n);
    if r < |StateAt(cfg, acts, n).refreshes| {
      assert LocalOk(cfg, StateAt(cfg, acts, n).refreshes[r], StateAt(cfg, acts, n).now);
    }
  }

  lemma SpawnedRound(f: Refresh)
    requires RoundOk(f)
    ensures f.phase.Spawned? ==> f.round == 0
  {
  }

  /** Only a context that is over keeps a goroutine from measuring a second time: it has then
      lasted the interval and a minute since its first step. */
  lemma {:induction false} SecondRoundSkipped(cfg: Config, acts: seq<Action>, n: nat, r: nat) returns (b: nat, i: nat)
    requires n <= |acts| && r < |StateAt(cfg, acts, n).refreshes|
    requires var f := StateAt(cfg, acts, n).refreshes[r]; f.round == 1 && (f.phase.Removing? || f.phase.Gone?)
    ensures b < i < n && StepsIn(cfg, acts, b, r, 0) && acts[b].step == Begin
    ensures StepsIn(cfg, acts, i, r, 1) && acts[i].step == ContextOver
    ensures StateAt(cfg, acts, i).now >= StateAt(cfg, acts, b).now + cfg.interval + 60_000_000_000
  {
    hide StateAt, StepRefresh, Visible, CanStep, RoundOk;
    NobodyYet(cfg, acts, n, r);
    Stepped(cfg, acts, n, r);
    RoundAt(cfg, acts, n, r);
    SpawnedRound(StateAt(cfg, acts, n).refreshes[r]);
    var s := StateAt(cfg, acts, n - 1);
    RoundAt(cfg, acts, n - 1, r);
    if Moves(cfg, s, acts[n - 1], r) {
      DeadlineSteps(cfg, s.refreshes[r], s.now, Visible(s, KeyOf(s, r)), acts[n - 1].step);
    }
    if s.refreshes[r].phase.Removing? || s.refreshes[r].phase.Gone? {
      b, i := SecondRoundSkipped(cfg, acts, n - 1, r);
    } else {
      i := n - 1;
      b := ContextBegan(cfg, acts, i, r);
    }
  }

  lemma WaitingSteps(cfg: Config, f: Refresh, now: Time, seen: Option<Raw>, step: RefreshStep)
    requires RoundOk(f) && CanStep(cfg, f, now, step)
    ensures var g := StepRefresh(cfg, f, now, seen, step);
            && (g.phase.Closed? ==> step == Close && f.round == 1)
            && (g.phase.Waiting? ==> step == Arm && f.phase.Closed? && g.phase.armed == now)
            && (g.round == 2 && f.round != 2 ==>
                  step == IntervalOver && f.phase.Waiting? && f.round == 1 && now >= f.phase.armed + cfg.interval)
  {
    hide Trim, Loaded;
  }

  /** The pause begins after the close. */
  lemma {:induction false} PauseBegan(cfg: Config, acts: seq<Action>, n: nat, r: nat) returns (c: nat)
    requires n <= |acts| && r < |StateAt(cfg, acts, n).refreshes|
    requires var f := StateAt(cfg, acts, n).refreshes[r]; f.phase.Closed? || f.phase.Waiting?
    ensures c < n && StepsIn(cfg, acts, c, r, 1) && acts[c].step == Close
    ensures var f := StateAt(cfg, acts, n).refreshes[r];
            f.phase.Waiting? ==> f.phase.armed >= StateAt(cfg, acts, c).now
  {
    hide StateAt, StepRefresh, Visible, CanStep, RoundOk;
    NobodyYet(cfg, acts, n, r);
    Stepped(cfg, acts, n, r);
    RoundAt(cfg, acts, n - 1, r);
    var s := StateAt(cfg, acts, n - 1);
    if Moves(cfg, s, acts[n - 1], r) {
      WaitingSteps(cfg, s.refreshes[r], s.now, Visible(s, KeyOf(s, r)), acts[n - 1].step);
      if acts[n - 1].step == Close {
        c := n - 1;
        return;
      }
    }
    c := PauseBegan(cfg, acts, n - 1, r);
    ClockAdvances(cfg, acts, c, n - 1);
  }

  /** The second measurement begins at least the interval after `done` was closed. */
  lemma {:induction false} SecondRoundSpaced(cfg: Config, acts: seq<Action>, n: nat, r: nat) returns (c: nat, i: nat)
    requires n <= |acts| && r < |StateAt(cfg, acts, n).refreshes| && StateAt(cfg, acts, n).refreshes[r].round == 2
    ensures c < i < n && StepsIn(cfg, acts, c, r, 1) && acts[c].step == Close
    ensures StepsIn(cfg, acts, i, r, 1) && acts[i].step == IntervalOver
    ensures StateAt(cfg, acts, i).now >= StateAt(cfg, acts, c).now + cfg.interval
  {
    hide StateAt, StepRefresh, Visible, CanStep, RoundOk;
    NobodyYet(cfg, acts, n, r);
    Stepped(cfg, acts, n, r);
    RoundAt(cfg, acts, n, r);
    SpawnedRound(StateAt(cfg, acts, n).refreshes[r]);
    RoundAt(cfg, acts, n - 1, r);
    var s := StateAt(cfg, acts, n - 1);
    if s.refreshes[r].round == 2 {
      c, i := SecondRoundSpaced(cfg, acts, n - 1, r);
    } else {
      WaitingSteps(cfg, s.refreshes[r], s.now, Visible(s, KeyOf(s, r)), acts[n - 1].step);
      i := n - 1;
      c := PauseBegan(cfg, acts, i, r);
    }
  }
}
