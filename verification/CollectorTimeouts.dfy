/** When the statistics collector answers ErrTimeout although a measurement has arrived. */
module CollectorTimeouts {
  import opened CollectorModel
  import opened CollectorSafety
  import opened CollectorBuffers
  import opened CollectorOutcomes
  import opened Options

  // ---- From any state on ----

  /** The state after the first n actions, starting from s. */
  function From(cfg: Config, s: State, acts: seq<Action>, n: nat): State
    requires n <= |acts|
  {
    if n == 0 then s else Next(cfg, From(cfg, s, acts, n - 1), acts[n - 1])
  }

  lemma {:induction false} RunContinues(cfg: Config, a: seq<Action>, b: seq<Action>, n: nat)
    requires n <= |b|
    ensures StateAt(cfg, a + b, |a| + n) == From(cfg, StateAt(cfg, a, |a|), b, n)
  {
    hide Next;
    if n == 0 {
      SamePrefix(cfg, a, b, |a|);
    } else {
      RunContinues(cfg, a, b, n - 1);
      assert (a + b)[|a| + n - 1] == b[n - 1];
    }
  }

  lemma {:induction false} SamePrefix(cfg: Config, a: seq<Action>, b: seq<Action>, n: nat)
    requires n <= |a|
    ensures StateAt(cfg, a + b, n) == StateAt(cfg, a, n)
  {
    hide Next;
    if n > 0 {
      SamePrefix(cfg, a, b, n - 1);
      assert (a + b)[n - 1] == a[n - 1];
    }
  }

  // ---- A request that nobody disturbs ----

  /** A request's steps at one instant, with working Gets and no one else acting. */
  function Ask(subject: Subject, q: nat): seq<Action> {
    [ Arrive(subject), OfRequest(q, FirstGet(false)), OfRequest(q, Join), OfRequest(q, StartTimer),
      OfRequest(q, Wake), OfRequest(q, SecondGet(false)), OfRequest(q, Judge)
    ]
  }

  /** The collection that the request would join has announced a stored measurement, and
      what was stored can no longer be read. */
  predicate AnnouncedAndLapsed(s: State, key: string) {
    && key in s.inflight && s.inflight[key] < |s.refreshes|
    && s.refreshes[s.inflight[key]].done && s.refreshes[s.inflight[key]].first.Stored?
    && Visible(s, key).None?
  }

  /** The state with one more request. */
  function With(s: State, subject: Subject, p: Progress): State {
    s.(requests := s.requests + [Request(subject, p)])
  }

  lemma OneStep(cfg: Config, s: State, subject: Subject, p: Progress, move: RequestStep)
    requires !move.Join?
    ensures Next(cfg, With(s, subject, p), OfRequest(|s.requests|, move))
         == With(s, subject, StepRequest(cfg, s, Request(subject, p), move))
  {
    hide Visible;
    var t := With(s, subject, p);
    assert Visible(t, Key(subject)) == Visible(s, Key(subject)) by {
      SameVisible(t, s, Key(subject));
    }
  }

  lemma SameVisible(t: State, s: State, key: string)
    requires t.now == s.now && t.store == s.store
    ensures Visible(t, key) == Visible(s, key)
  {
  }

  lemma JoinStep(cfg: Config, s: State, subject: Subject)
    ensures Next(cfg, With(s, subject, Joining), OfRequest(|s.requests|, Join))
         == With(Joined(s, subject).0, subject, Timing(Joined(s, subject).1))
  {
  }

  /** An answered request rests. */
  lemma AnsweredRests(cfg: Config, s: State, subject: Subject, o: Outcome, move: RequestStep)
    ensures Next(cfg, With(s, subject, Answered(o)), OfRequest(|s.requests|, move)) == With(s, subject, Answered(o))
  {
    hide Visible, Joined;
  }

  /** Up to the point where it waits, or is answered from the store at once. */
  lemma AskedAndJoined(cfg: Config, s: State, subject: Subject)
    requires subject != Container("host")
    ensures From(cfg, s, Ask(subject, |s.requests|), 4)
         == if Visible(s, Key(subject)).Some? then With(s, subject, Answered(Value(Visible(s, Key(subject)).value)))
            else
              var (u, r) := Joined(s, subject);
              With(u, subject, Blocked(r, s.now + EffectiveTimeout(cfg)))
  {
    hide Next, Visible, Key, With;
    var acts := Ask(subject, |s.requests|);
    var seen := Visible(s, Key(subject));
    assert From(cfg, s, acts, 1) == With(s, subject, Asking) by {
      ArriveStep(cfg, s, subject);
    }
    OneStep(cfg, s, subject, Asking, FirstGet(false));
    var p := if seen.Some? then Answered(Value(seen.value)) else Joining;
    assert From(cfg, s, acts, 2) == With(s, subject, p);
    if seen.Some? {
      AnsweredRests(cfg, s, subject, p.outcome, Join);
      assert From(cfg, s, acts, 3) == With(s, subject, p);
      AnsweredRests(cfg, s, subject, p.outcome, StartTimer);
    } else {
      var (u, r) := Joined(s, subject);
      JoinStep(cfg, s, subject);
      assert From(cfg, s, acts, 3) == With(u, subject, Timing(r));
      OneStep(cfg, u, subject, Timing(r), StartTimer);
    }
  }

  lemma ArriveStep(cfg: Config, s: State, subject: Subject)
    requires subject != Container("host")
    ensures Next(cfg, s, Arrive(subject)) == With(s, subject, Asking)
  {
  }

  /** How a waiting request stands after looking at `done`, a second Get and the judgement. */
  function Awakened(u: State, subject: Subject, r: nat, timer: Time): Progress
    requires r < |u.refreshes|
  {
    var seen := Visible(u, Key(subject));
    if !u.refreshes[r].done then Blocked(r, timer)
    else if seen.Some? then Answered(Value(seen.value))
    else match u.refreshes[r].err
      case Some(e) => Answered(CollectFailed(e))
      case None => Answered(TimedOut)
  }

  lemma AwakeAndJudged(cfg: Config, u: State, subject: Subject, r: nat, timer: Time)
    requires r < |u.refreshes|
    ensures var t := Next(cfg, With(u, subject, Blocked(r, timer)), OfRequest(|u.requests|, Wake));
            var v := Next(cfg, t, OfRequest(|u.requests|, SecondGet(false)));
            Next(cfg, v, OfRequest(|u.requests|, Judge)) == With(u, subject, Awakened(u, subject, r, timer))
  {
    hide Next, Visible, Key, With;
    var p1 := if u.refreshes[r].done then Rereading(r) else Blocked(r, timer);
    OneStep(cfg, u, subject, Blocked(r, timer), Wake);
    var p2 := StepRequest(cfg, u, Request(subject, p1), SecondGet(false));
    OneStep(cfg, u, subject, p1, SecondGet(false));
    OneStep(cfg, u, subject, p2, Judge);
  }

  lemma LastSteps(cfg: Config, s: State, subject: Subject, q: nat)
    ensures var t := Next(cfg, From(cfg, s, Ask(subject, q), 4), OfRequest(q, Wake));
            var v := Next(cfg, t, OfRequest(q, SecondGet(false)));
            From(cfg, s, Ask(subject, q), 7) == Next(cfg, v, OfRequest(q, Judge))
  {
    hide Next;
    var acts := Ask(subject, q);
    assert From(cfg, s, acts, 5) == Next(cfg, From(cfg, s, acts, 4), OfRequest(q, Wake));
    assert From(cfg, s, acts, 6) == Next(cfg, From(cfg, s, acts, 5), OfRequest(q, SecondGet(false)));
  }

  // ---- ErrTimeout without waiting ----

  /** A new request is answered with ErrTimeout in no time, although a measurement did
      arrive, if and only if the collection it joins has already announced a stored first
      measurement and the stored value has lapsed. */
  lemma PromptTimeoutIff(cfg: Config, s: State, subject: Subject)
    requires Safe(cfg, s) && subject != Container("host")
    ensures var t := From(cfg, s, Ask(subject, |s.requests|), 7);
            && t.now == s.now && |t.requests| == |s.requests| + 1
            && (t.requests[|s.requests|].progress == Answered(TimedOut) <==> AnnouncedAndLapsed(s, Key(subject)))
  {
    hide Next, Visible, Key, From, Ask, Safe;
    var q, key := |s.requests|, Key(subject);
    AskedAndJoined(cfg, s, subject);
    LastSteps(cfg, s, subject, q);
    if Visible(s, key).Some? {
      var o := Value(Visible(s, key).value);
      AnsweredRests(cfg, s, subject, o, Wake);
      AnsweredRests(cfg, s, subject, o, SecondGet(false));
      AnsweredRests(cfg, s, subject, o, Judge);
    } else {
      var (u, r) := Joined(s, subject);
      JoinKeeps(cfg, s, subject);
      SameVisible(u, s, key);
      AwakeAndJudged(cfg, u, subject, r, s.now + EffectiveTimeout(cfg));
      if key in s.inflight && s.refreshes[r].done {
        AnnouncedErr(cfg, s, s.inflight[key]);
      }
    }
  }

  lemma AnnouncedErr(cfg: Config, s: State, r: nat)
    requires Safe(cfg, s) && r < |s.refreshes| && s.refreshes[r].done
    ensures s.refreshes[r].err.None? <==> s.refreshes[r].first.Stored?
  {
    hide InflightExact, AllRequests, StartsSpaced, TimingOk, RoundOk;
    assert LocalOk(cfg, s.refreshes[r], s.now);
  }

  /** In any run, an answer that is judged is ErrTimeout if and only if the first measurement
      of the joined refresh was stored; otherwise it is the cause of that one's failure. */
  lemma JudgedTimeoutIff(cfg: Config, acts: seq<Action>, i: nat, q: nat)
    requires Makes(cfg, acts, i, q, Judge) && ProgressAt(cfg, acts, i, q).Judging?
    ensures var r := ProgressAt(cfg, acts, i, q).r;
            && q < |StateAt(cfg, acts, i + 1).requests| && r < |StateAt(cfg, acts, i).refreshes|
            && (ProgressAt(cfg, acts, i + 1, q) == Answered(TimedOut)
                <==> StateAt(cfg, acts, i).refreshes[r].first.Stored?)
  {
    hide Safe, StateAt;
    var s, r := StateAt(cfg, acts, i), ProgressAt(cfg, acts, i, q).r;
    Reachable(cfg, acts, i);
    JudgingDone(cfg, s, q);
    AnnouncedErr(cfg, s, r);
    StateStep(cfg, acts, i);
  }

  lemma StateStep(cfg: Config, acts: seq<Action>, i: nat)
    requires i < |acts|
    ensures StateAt(cfg, acts, i + 1) == Next(cfg, StateAt(cfg, acts, i), acts[i])
  {
  }

  lemma JudgingDone(cfg: Config, s: State, q: nat)
    requires Safe(cfg, s) && q < |s.requests| && s.requests[q].progress.Judging?
    ensures s.requests[q].progress.r < |s.refreshes| && s.refreshes[s.requests[q].progress.r].done
  {
    hide AllLocal, InflightExact, StartsSpaced;
    RequestAt(cfg, s, q);
  }

  // ---- A run that comes to this ----

  /** The host is measured and stored at once, and the second measurement, begun on time,
      takes until the stored figures have expired. */
  function SlowSecond(cfg: Config): seq<Action>
    requires cfg.interval >= 0
  {
    [ Arrive(Host), OfRequest(0, FirstGet(false)), OfRequest(0, Join), OfRefresh(0, Begin),
      OfRefresh(0, Measure(Measured(""))), OfRefresh(0, Store(None)), OfRefresh(0, Report), OfRefresh(0, Close),
      OfRefresh(0, Arm), Tick(cfg.interval), OfRefresh(0, IntervalOver), Tick(HOST_STATS_TTL)
    ]
  }

  /** A state with one request and one goroutine of the host. */
  function HostState(now: Time, store: map<string, Entry>, f: Refresh): State {
    State(now, store, map[HOST_STATS_KEY := 0], [f], [Request(Host, Timing(0))], map[])
  }

  lemma HostJoins(cfg: Config)
    requires cfg.interval >= 0
    ensures StateAt(cfg, SlowSecond(cfg), 3)
         == HostState(0, map[], Refresh(Host, 0, 0, Spawned, false, None, 0, Pending, 0, 0))
  {
    var acts := SlowSecond(cfg);
    assert StateAt(cfg, acts, 1) == With(INITIAL, Host, Asking);
    assert StateAt(cfg, acts, 2) == With(INITIAL, Host, Joining);
    JoinStep(cfg, INITIAL, Host);
  }

  lemma HostSteps(cfg: Config, now: Time, store: map<string, Entry>, f: Refresh, step: RefreshStep)
    requires f.subject.Host? && CanStep(cfg, f, now, step) && !step.Remove? && !step.Load?
    requires step.Store? ==> f.phase.raw.Figures?
    ensures Next(cfg, HostState(now, store, f), OfRefresh(0, step))
         == HostState(now,
                      if step == Store(None) then store[HOST_STATS_KEY := Entry(f.phase.raw, now + HOST_STATS_TTL)]
                      else store,
                      StepRefresh(cfg, f, now, None, step))
  {
  }

  lemma SlowSecondActions(cfg: Config)
    requires cfg.interval >= 0
    ensures var acts := SlowSecond(cfg);
            && |acts| == 12 && acts[3] == OfRefresh(0, Begin) && acts[4] == OfRefresh(0, Measure(Measured("")))
            && acts[5] == OfRefresh(0, Store(None)) && acts[6] == OfRefresh(0, Report)
            && acts[7] == OfRefresh(0, Close) && acts[8] == OfRefresh(0, Arm)
  {
  }

  /** The first measurement: stored at 0, announced, and the wait begins. */
  lemma HostMeasures(cfg: Config)
    requires cfg.interval >= 0
    ensures StateAt(cfg, SlowSecond(cfg), 9)
         == HostState(0, map[HOST_STATS_KEY := Entry(Figures(""), HOST_STATS_TTL)],
                      Refresh(Host, 0, cfg.interval + MINUTE, Waiting(0), true, None, 1, Stored(0), 1, 0))
  {
    hide Next, HostState, StateAt, SlowSecond;
    var acts := SlowSecond(cfg);
    SlowSecondActions(cfg);
    HostJoins(cfg);
    var store := map[HOST_STATS_KEY := Entry(Figures(""), HOST_STATS_TTL)];
    var f := Refresh(Host, 0, 0, Spawned, false, None, 0, Pending, 0, 0);
    StateStep(cfg, acts, 3);
    HostSteps(cfg, 0, map[], f, Begin);
    var g := f.(phase := Measuring, round := 1, deadline := cfg.interval + MINUTE);
    assert StateAt(cfg, acts, 4) == HostState(0, map[], g);
    StateStep(cfg, acts, 4);
    HostSteps(cfg, 0, map[], g, Measure(Measured("")));
    assert StateAt(cfg, acts, 5) == HostState(0, map[], g.(phase := Storing(Figures(""))));
    StateStep(cfg, acts, 5);
    HostSteps(cfg, 0, map[], g.(phase := Storing(Figures(""))), Store(None));
    var h := g.(phase := Returned(None), first := Stored(0));
    assert StateAt(cfg, acts, 6) == HostState(0, store, h);
    StateStep(cfg, acts, 6);
    HostSteps(cfg, 0, store, h, Report);
    assert StateAt(cfg, acts, 7) == HostState(0, store, h.(phase := Closing));
    StateStep(cfg, acts, 7);
    HostSteps(cfg, 0, store, h.(phase := Closing), Close);
    var d := h.(phase := Closed, done := true, closes := 1);
    assert StateAt(cfg, acts, 8) == HostState(0, store, d);
    StateStep(cfg, acts, 8);
    HostSteps(cfg, 0, store, d, Arm);
  }

  lemma SlowSecondLapses(cfg: Config)
    requires cfg.interval >= 0
    ensures var s := StateAt(cfg, SlowSecond(cfg), 12);
            && s.now == cfg.interval + HOST_STATS_TTL && |s.requests| == 1 && |s.refreshes| == 1
            && s.refreshes[0].phase.Measuring? && AnnouncedAndLapsed(s, HOST_STATS_KEY)
  {
    hide StateAt;
    var acts := SlowSecond(cfg);
    var store := map[HOST_STATS_KEY := Entry(Figures(""), HOST_STATS_TTL)];
    var f := Refresh(Host, 0, cfg.interval + MINUTE, Waiting(0), true, None, 1, Stored(0), 1, 0);
    HostMeasures(cfg);
    StateStep(cfg, acts, 9);
    assert StateAt(cfg, acts, 10) == HostState(cfg.interval, store, f);
    StateStep(cfg, acts, 10);
    HostSteps(cfg, cfg.interval, store, f, IntervalOver);
    assert StateAt(cfg, acts, 11) == HostState(cfg.interval, store, f.(phase := Measuring, round := 2));
    StateStep(cfg, acts, 11);
  }

  /** So there is a run, whatever the timeout is, in which a request that has just arrived is
      told ErrTimeout at the same instant, with the collection it joined still under way. */
  lemma PromptTimeoutHappens(cfg: Config)
    requires cfg.interval >= 0
    ensures var acts := SlowSecond(cfg) + Ask(Host, 1);
            && |acts| == 19 && |StateAt(cfg, acts, 12).requests| == 1
            && StateAt(cfg, acts, 19).now == StateAt(cfg, acts, 12).now
            && |StateAt(cfg, acts, 19).requests| == 2
            && StateAt(cfg, acts, 19).requests[1].progress == Answered(TimedOut)
  {
    hide StateAt, From, Safe, AnnouncedAndLapsed;
    var a := SlowSecond(cfg);
    Reachable(cfg, a, 12);
    SlowSecondLapses(cfg);
    PromptTimeoutIff(cfg, StateAt(cfg, a, 12), Host);
    SamePrefix(cfg, a, Ask(Host, 1), 12);
    RunContinues(cfg, a, Ask(Host, 1), 7);
  }
}
