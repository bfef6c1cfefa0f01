/** The ring buffers of the statistics collector refine the list of samples stored so far.

    A goroutine loads the buffer, appends its sample, trims and stores, in four unlocked
    steps. That no update gets lost between them is owed to single flight alone. */
module CollectorBuffers {
  import opened CollectorModel
  import opened CollectorSafety
  import opened Options

  predicate IsSuffix<T(==)>(a: seq<T>, b: seq<T>) {
    |a| <= |b| && a == b[|b| - |a|..]
  }

  /** A readable buffer: the most recent of the samples h, at least one, at most MAX_SAMPLES. */
  predicate RecentOf(raw: Raw, h: seq<Sample>) {
    raw.Buffer? ==> 1 <= |raw.samples| <= MAX_SAMPLES && IsSuffix(raw.samples, h)
  }

  /** A buffer about to be stored: its last sample is new, the others are the most recent. */
  predicate NextAfter(raw: Raw, h: seq<Sample>) {
    raw.Buffer? ==> 1 <= |raw.samples| <= MAX_SAMPLES && IsSuffix(raw.samples[..|raw.samples| - 1], h)
  }

  predicate StoredOk(s: State) {
    forall k | k in s.store :: RecentOf(s.store[k].raw, HistoryOf(s, k))
  }

  predicate PendingOk(s: State) {
    forall i | 0 <= i < |s.refreshes| && s.refreshes[i].phase.Storing? ::
      NextAfter(s.refreshes[i].phase.raw, HistoryOf(s, KeyOf(s, i)))
  }

  predicate BuffersOk(s: State) {
    StoredOk(s) && PendingOk(s)
  }

  // ---- Load, append, trim, store ----

  lemma LoadedIsNext(seen: Option<Raw>, failed: bool, x: Sample, h: seq<Sample>)
    requires seen.Some? ==> RecentOf(seen.value, h)
    ensures var raw := Encode(Trim(Loaded(seen, failed) + [x]));
            NextAfter(raw, h) && raw.samples[|raw.samples| - 1] == x
  {
    var loaded := Loaded(seen, failed);
    var ss := Trim(loaded + [x]);
    assert IsSuffix(loaded, h);
    assert ss[..|ss| - 1] == loaded[|loaded| + 1 - |ss|..];
  }

  /** The history after storing raw. */
  function Appended(raw: Raw, h: seq<Sample>): seq<Sample> {
    if raw.Buffer? && raw.samples != [] then h + [raw.samples[|raw.samples| - 1]] else h
  }

  lemma NextIsRecent(raw: Raw, h: seq<Sample>)
    requires NextAfter(raw, h)
    ensures RecentOf(raw, Appended(raw, h))
  {
    if raw.Buffer? {
      var ss := raw.samples;
      assert ss == ss[..|ss| - 1] + [ss[|ss| - 1]];
    }
  }

  // ---- Every step keeps it ----

  /** Nobody else stores under the key of a goroutine that is about to store. */
  lemma OnlyStorer(s: State, i: nat, j: nat)
    requires InflightExact(s) && i < |s.refreshes| && j < |s.refreshes| && KeyOf(s, i) == KeyOf(s, j)
    requires s.refreshes[i].phase.Storing? && s.refreshes[j].phase.Storing?
    ensures i == j
  {
    assert Live(s, i) && Live(s, j);
  }

  /** A successful Set replaces the entry, appends to the history of its key, and is over. */
  lemma SetShape(cfg: Config, s: State, r: nat)
    requires r < |s.refreshes| && s.refreshes[r].phase.Storing?
    ensures var t, key, raw := NextRefresh(cfg, s, r, Store(None)), KeyOf(s, r), s.refreshes[r].phase.raw;
            && t.store == s.store[key := Entry(raw, s.now + TTL(s.refreshes[r].subject))]
            && t.now == s.now && t.requests == s.requests && t.inflight == s.inflight
            && |t.refreshes| == |s.refreshes| && t.refreshes == s.refreshes[r := t.refreshes[r]]
            && t.refreshes[r].phase.Returned? && t.refreshes[r].subject == s.refreshes[r].subject
            && HistoryOf(t, key) == Appended(raw, HistoryOf(s, key))
            && forall k | k != key :: HistoryOf(t, k) == HistoryOf(s, k)
  {
  }

  lemma StoreKeepsBuffers(cfg: Config, s: State, r: nat)
    requires InflightExact(s) && BuffersOk(s) && r < |s.refreshes| && s.refreshes[r].phase.Storing?
    ensures BuffersOk(NextRefresh(cfg, s, r, Store(None)))
  {
    hide NextRefresh, InflightExact, HistoryOf, RecentOf, NextAfter, TTL;
    var t := NextRefresh(cfg, s, r, Store(None));
    var key, raw := KeyOf(s, r), s.refreshes[r].phase.raw;
    SetShape(cfg, s, r);
    NextIsRecent(raw, HistoryOf(s, key));
    forall i | 0 <= i < |t.refreshes| && t.refreshes[i].phase.Storing?
      ensures NextAfter(t.refreshes[i].phase.raw, HistoryOf(t, KeyOf(t, i)))
    {
      assert i != r && s.refreshes[i].phase.Storing? && KeyOf(t, i) == KeyOf(s, i);
      if KeyOf(s, i) == key {
        OnlyStorer(s, i, r);
      }
    }
  }

  /** What a goroutine's step other than a successful Set leaves to be stored. */
  lemma StepIsNext(cfg: Config, f: Refresh, now: Time, seen: Option<Raw>, step: RefreshStep, h: seq<Sample>)
    requires CanStep(cfg, f, now, step)
    requires seen.Some? ==> RecentOf(seen.value, h)
    ensures var g := StepRefresh(cfg, f, now, seen, step); g.phase.Storing? ==> NextAfter(g.phase.raw, h)
  {
    hide Trim, Loaded;
    if step.Load? {
      LoadedIsNext(seen, step.failed, f.phase.sample, h);
    }
  }

  lemma RefreshKeepsBuffers(cfg: Config, s: State, r: nat, step: RefreshStep)
    requires InflightExact(s) && BuffersOk(s)
    ensures BuffersOk(NextRefresh(cfg, s, r, step))
  {
    hide InflightExact, StepRefresh, Written, RecentOf, NextAfter;
    if r < |s.refreshes| && CanStep(cfg, s.refreshes[r], s.now, step) {
      if step == Store(None) {
        StoreKeepsBuffers(cfg, s, r);
      } else {
        var f := s.refreshes[r];
        StepIsNext(cfg, f, s.now, Visible(s, Key(f.subject)), step, HistoryOf(s, Key(f.subject)));
        SubjectStays(cfg, f, s.now, Visible(s, Key(f.subject)), step);
        var t := NextRefresh(cfg, s, r, step);
        assert forall k :: HistoryOf(t, k) == HistoryOf(s, k);
        assert forall i | 0 <= i < |t.refreshes| :: KeyOf(t, i) == KeyOf(s, i);
      }
    }
  }

  lemma SubjectStays(cfg: Config, f: Refresh, now: Time, seen: Option<Raw>, step: RefreshStep)
    requires CanStep(cfg, f, now, step)
    ensures StepRefresh(cfg, f, now, seen, step).subject == f.subject
  {
  }

  lemma RequestKeepsBuffers(cfg: Config, s: State, q: nat, move: RequestStep)
    requires BuffersOk(s)
    ensures BuffersOk(NextRequest(cfg, s, q, move))
  {
    hide StepRequest, RecentOf, NextAfter;
    var t := NextRequest(cfg, s, q, move);
    assert s.refreshes <= t.refreshes;
    assert forall k :: HistoryOf(t, k) == HistoryOf(s, k);
    forall i | 0 <= i < |t.refreshes| && t.refreshes[i].phase.Storing?
      ensures i < |s.refreshes| && KeyOf(t, i) == KeyOf(s, i) && t.refreshes[i] == s.refreshes[i]
    {
    }
  }

  lemma NextKeepsBuffers(cfg: Config, s: State, a: Action)
    requires Safe(cfg, s) && BuffersOk(s)
    ensures BuffersOk(Next(cfg, s, a))
  {
    hide NextRefresh, NextRequest, AllLocal, InflightExact, AllRequests, StartsSpaced, RecentOf, NextAfter;
    match a
    case OfRefresh(r, step) => RefreshKeepsBuffers(cfg, s, r, step);
    case OfRequest(q, move) => RequestKeepsBuffers(cfg, s, q, move);
    case Damage(key, text, expires) =>
      var t := Next(cfg, s, a);
      assert RecentOf(t.store[key].raw, HistoryOf(t, key)) by {
        DamageIsNoBuffer(text, HistoryOf(t, key));
      }
      assert forall k :: HistoryOf(t, k) == HistoryOf(s, k);
      assert forall i | 0 <= i < |t.refreshes| :: KeyOf(t, i) == KeyOf(s, i);
    case _ =>
      var t := Next(cfg, s, a);
      assert forall k :: HistoryOf(t, k) == HistoryOf(s, k);
      assert forall i | 0 <= i < |t.refreshes| :: KeyOf(t, i) == KeyOf(s, i);
  }

  lemma DamageIsNoBuffer(text: string, h: seq<Sample>)
    ensures RecentOf(Unreadable(text), h)
  {
  }

  lemma {:induction false} ReachableBuffers(cfg: Config, acts: seq<Action>, n: nat)
    requires n <= |acts|
    ensures BuffersOk(StateAt(cfg, acts, n))
  {
    hide Next, Safe, BuffersOk;
    if n > 0 {
      ReachableBuffers(cfg, acts, n - 1);
      Reachable(cfg, acts, n - 1);
      NextKeepsBuffers(cfg, StateAt(cfg, acts, n - 1), acts[n - 1]);
    } else {
      InitialBuffers();
    }
  }

  lemma InitialBuffers()
    ensures BuffersOk(INITIAL)
  {
  }

  // ---- The history, read off the actions ----

  /** The sample that goroutine r measured last in the first n actions, if any. */
  function LastMeasured(cfg: Config, acts: seq<Action>, n: nat, r: nat): seq<Sample>
    requires n <= |acts|
  {
    if n == 0 then []
    else if && Moves(cfg, StateAt(cfg, acts, n - 1), acts[n - 1], r)
            && acts[n - 1].step.Measure? && acts[n - 1].step.result.Measured?
    then [acts[n - 1].step.result.sample]
    else LastMeasured(cfg, acts, n - 1, r)
  }

  /** Action n is a container goroutine's successful Set of the given key. */
  predicate StoresSample(cfg: Config, acts: seq<Action>, n: nat, key: string)
    requires n < |acts|
  {
    && acts[n].OfRefresh? && Moves(cfg, StateAt(cfg, acts, n), acts[n], acts[n].r) && acts[n].step == Store(None)
    && StateAt(cfg, acts, n).refreshes[acts[n].r].subject.Container?
    && KeyOf(StateAt(cfg, acts, n), acts[n].r) == key
  }

  /** The samples stored under a key in the first n actions: for each successful Set what
      the goroutine that made it had measured last. */
  function StoredSamples(cfg: Config, acts: seq<Action>, n: nat, key: string): seq<Sample>
    requires n <= |acts|
  {
    if n == 0 then []
    else StoredSamples(cfg, acts, n - 1, key)
         + (if StoresSample(cfg, acts, n - 1, key) then LastMeasured(cfg, acts, n - 1, acts[n - 1].r) else [])
  }

  /** A goroutine carries what it measured last. */
  predicate Carries(f: Refresh, measured: seq<Sample>) {
    && (f.phase.Loading? ==> measured == [f.phase.sample])
    && (f.phase.Storing? && f.phase.raw.Figures? ==> measured == [f.phase.raw.text])
    && (f.phase.Storing? && f.phase.raw.Buffer? ==>
          f.phase.raw.samples != [] && measured == [f.phase.raw.samples[|f.phase.raw.samples| - 1]])
  }

  lemma StepCarries(cfg: Config, f: Refresh, now: Time, seen: Option<Raw>, step: RefreshStep, measured: seq<Sample>)
    requires CanStep(cfg, f, now, step) && Carries(f, measured)
    requires seen.Some? ==> exists h :: RecentOf(seen.value, h)
    ensures var g := StepRefresh(cfg, f, now, seen, step);
            Carries(g, if step.Measure? && step.result.Measured? then [step.result.sample] else measured)
  {
    hide Trim, Loaded;
    if step.Load? {
      var h :| seen.Some? ==> RecentOf(seen.value, h);
      LoadedIsNext(seen, step.failed, f.phase.sample, h);
    }
  }

  lemma SpawnedCarries(f: Refresh, measured: seq<Sample>)
    requires f.phase.Spawned?
    ensures Carries(f, measured)
  {
  }

  lemma VisibleIsRecent(s: State, key: string)
    requires BuffersOk(s)
    ensures Visible(s, key).Some? ==> RecentOf(Visible(s, key).value, HistoryOf(s, key))
  {
  }

  lemma {:induction false} CarriesLast(cfg: Config, acts: seq<Action>, n: nat, r: nat)
    requires n <= |acts| && r < |StateAt(cfg, acts, n).refreshes|
    ensures Carries(StateAt(cfg, acts, n).refreshes[r], LastMeasured(cfg, acts, n, r))
  {
    hide Safe, BuffersOk, StepRefresh, CanStep, Carries, RecentOf, Visible;
    if n > 0 {
      var s := StateAt(cfg, acts, n - 1);
      ReachableBuffers(cfg, acts, n - 1);
      NextRefreshAt(cfg, s, acts[n - 1], r);
      if r < |s.refreshes| {
        CarriesLast(cfg, acts, n - 1, r);
        if Moves(cfg, s, acts[n - 1], r) {
          VisibleIsRecent(s, KeyOf(s, r));
          var seen, measured := Visible(s, KeyOf(s, r)), LastMeasured(cfg, acts, n - 1, r);
          StepCarries(cfg, s.refreshes[r], s.now, seen, acts[n - 1].step, measured);
        }
      } else {
        SpawnedCarries(StateAt(cfg, acts, n).refreshes[r], LastMeasured(cfg, acts, n, r));
      }
    }
  }

  /** What one action adds to a history. */
  lemma HistoryGrows(cfg: Config, s: State, a: Action, key: string)
    requires Safe(cfg, s) && BuffersOk(s)
    ensures HistoryOf(Next(cfg, s, a), key)
         == if && a.OfRefresh? && Moves(cfg, s, a, a.r) && a.step == Store(None)
               && s.refreshes[a.r].subject.Container? && KeyOf(s, a.r) == key
            then HistoryOf(s, key) + [s.refreshes[a.r].phase.raw.samples[|s.refreshes[a.r].phase.raw.samples| - 1]]
            else HistoryOf(s, key)
  {
    hide InflightExact, AllRequests, StartsSpaced, StepRequest, StepRefresh, Visible;
    if a.OfRefresh? && Moves(cfg, s, a, a.r) && a.step == Store(None) {
      assert LocalOk(cfg, s.refreshes[a.r], s.now);
      SetShape(cfg, s, a.r);
    }
  }

  /** The history kept in the state is the list of samples stored, as the actions tell it. */
  lemma {:induction false} HistoryIsStored(cfg: Config, acts: seq<Action>, n: nat, key: string)
    requires n <= |acts|
    ensures HistoryOf(StateAt(cfg, acts, n), key) == StoredSamples(cfg, acts, n, key)
  {
    hide Next, Safe, BuffersOk, HistoryOf, CanStep;
    if n > 0 {
      var s, a := StateAt(cfg, acts, n - 1), acts[n - 1];
      HistoryIsStored(cfg, acts, n - 1, key);
      Reachable(cfg, acts, n - 1);
      ReachableBuffers(cfg, acts, n - 1);
      HistoryGrows(cfg, s, a, key);
      if StoresSample(cfg, acts, n - 1, key) {
        CarriesLast(cfg, acts, n - 1, a.r);
        StoringContainer(cfg, s, a.r);
      }
    } else {
      NoHistory(key);
    }
  }

  lemma NoHistory(key: string)
    ensures HistoryOf(INITIAL, key) == []
  {
  }

  lemma StoringContainer(cfg: Config, s: State, r: nat)
    requires Safe(cfg, s) && r < |s.refreshes|
    requires CanStep(cfg, s.refreshes[r], s.now, Store(None)) && s.refreshes[r].subject.Container?
    ensures s.refreshes[r].phase.Storing? && s.refreshes[r].phase.raw.Buffer?
  {
    hide InflightExact, AllRequests, StartsSpaced, ProtocolOk, TimingOk;
    assert LocalOk(cfg, s.refreshes[r], s.now);
  }

  /** In every interleaving of requests, goroutines, expiries, failed Gets, failed Sets and
      foreign writes, a readable entry holds the most recent of the samples successfully
      stored for its key: at least one, at most MAX_SAMPLES, in order and without a gap. */
  lemma RingBuffer(cfg: Config, acts: seq<Action>, n: nat, key: string)
    requires n <= |acts| && key in StateAt(cfg, acts, n).store
    requires Decode(StateAt(cfg, acts, n).store[key].raw).Some?
    ensures var samples := Decode(StateAt(cfg, acts, n).store[key].raw).value;
            1 <= |samples| <= MAX_SAMPLES && IsSuffix(samples, StoredSamples(cfg, acts, n, key))
  {
    hide Next, HistoryOf;
    ReachableBuffers(cfg, acts, n);
    HistoryIsStored(cfg, acts, n, key);
  }

  // ---- While nothing is lost, the buffer is full ----

  /** The action does not make a container's goroutines lose sight of its buffer: no foreign
      write, and a Load that succeeds and finds the entry if there ever was one. */
  predicate KeepsSight(cfg: Config, s: State, a: Action, key: string) {
    && !(a.Damage? && a.key == key)
    && (a.OfRefresh? && a.step.Load? && Moves(cfg, s, a, a.r) && KeyOf(s, a.r) == key ==>
          !a.step.failed && (HistoryOf(s, key) != [] ==> Visible(s, key).Some?))
  }

  predicate FullEntry(s: State, key: string) {
    && (key in s.store <==> HistoryOf(s, key) != [])
    && (key in s.store ==> s.store[key].raw == Buffer(Trim(HistoryOf(s, key))))
  }

  predicate FullPending(s: State, key: string) {
    forall i | 0 <= i < |s.refreshes| && s.refreshes[i].phase.Storing? && KeyOf(s, i) == key ::
      && s.refreshes[i].phase.raw.Buffer? && s.refreshes[i].phase.raw.samples != []
      && s.refreshes[i].phase.raw.samples == Trim(Appended(s.refreshes[i].phase.raw, HistoryOf(s, key)))
  }

  lemma TrimAppend(h: seq<Sample>, x: Sample)
    ensures Trim(Trim(h) + [x]) == Trim(h + [x])
    ensures Trim(h + [x]) != [] && Trim(h + [x])[|Trim(h + [x])| - 1] == x
  {
    if |h| > MAX_SAMPLES {
      assert Trim(h) + [x] == (h + [x])[|h| - MAX_SAMPLES..];
    }
  }

  /** A goroutine of this key that is about to store after the action. */
  lemma FullStep(cfg: Config, s: State, a: Action, key: string, i: nat)
    requires Safe(cfg, s) && FullEntry(s, key) && FullPending(s, key) && KeepsSight(cfg, s, a, key)
    requires i < |s.refreshes| && KeyOf(s, i) == key && s.refreshes[i].subject.Container? && Moves(cfg, s, a, i)
    requires StepRefresh(cfg, s.refreshes[i], s.now, Visible(s, key), a.step).phase.Storing?
    ensures var raw := StepRefresh(cfg, s.refreshes[i], s.now, Visible(s, key), a.step).phase.raw;
            raw.Buffer? && raw.samples != [] && raw.samples == Trim(Appended(raw, HistoryOf(s, key)))
  {
    hide Safe, FullPending, HistoryOf, Trim;
    var h, f := HistoryOf(s, key), s.refreshes[i];
    if a.step.Load? {
      TrimAppend(h, f.phase.sample);
      TrimOfNothing();
    }
  }

  lemma TrimOfNothing()
    ensures Trim([]) == []
  {
  }

  lemma FullAfterSet(cfg: Config, s: State, r: nat, key: string)
    requires InflightExact(s) && FullEntry(s, key) && FullPending(s, key)
    requires r < |s.refreshes| && s.refreshes[r].phase.Storing?
    ensures var t := NextRefresh(cfg, s, r, Store(None)); FullEntry(t, key) && FullPending(t, key)
  {
    hide NextRefresh, InflightExact, HistoryOf, TTL, Trim;
    var t := NextRefresh(cfg, s, r, Store(None));
    SetShape(cfg, s, r);
    forall i | 0 <= i < |t.refreshes| && t.refreshes[i].phase.Storing? && KeyOf(t, i) == key
      ensures i != r && t.refreshes[i] == s.refreshes[i] && HistoryOf(t, key) == HistoryOf(s, key)
    {
      if KeyOf(s, r) == key {
        OnlyStorer(s, i, r);
      }
    }
  }

  lemma NextKeepsFull(cfg: Config, s: State, a: Action, id: string)
    requires Safe(cfg, s) && id != "host"
    requires var key := Key(Container(id)); FullEntry(s, key) && FullPending(s, key) && KeepsSight(cfg, s, a, key)
    ensures var t, key := Next(cfg, s, a), Key(Container(id)); FullEntry(t, key) && FullPending(t, key)
  {
    hide AllLocal, InflightExact, AllRequests, StartsSpaced, StepRequest, StepRefresh, Visible, Trim, CanStep;
    var t, key := Next(cfg, s, a), Key(Container(id));
    if a.OfRefresh? && a.step == Store(None) && Moves(cfg, s, a, a.r) {
      StoringAt(cfg, s, a.r);
      FullAfterSet(cfg, s, a.r, key);
    } else {
      QuietAction(cfg, s, a, key);
      forall i | 0 <= i < |t.refreshes| && t.refreshes[i].phase.Storing? && KeyOf(t, i) == key
        ensures t.refreshes[i].phase.raw.Buffer? && t.refreshes[i].phase.raw.samples != []
        ensures t.refreshes[i].phase.raw.samples == Trim(Appended(t.refreshes[i].phase.raw, HistoryOf(t, key)))
      {
        NextRefreshAt(cfg, s, a, i);
        if Moves(cfg, s, a, i) {
          SubjectStays(cfg, s.refreshes[i], s.now, Visible(s, KeyOf(s, i)), a.step);
          LocalSubject(cfg, s, i);
          KeysApart(s.refreshes[i].subject, Container(id));
          FullStep(cfg, s, a, key, i);
        }
      }
    }
  }

  lemma StoringAt(cfg: Config, s: State, r: nat)
    requires r < |s.refreshes| && CanStep(cfg, s.refreshes[r], s.now, Store(None))
    ensures s.refreshes[r].phase.Storing?
  {
  }

  /** No other action touches the entry or its history. */
  lemma QuietAction(cfg: Config, s: State, a: Action, key: string)
    requires !(a.OfRefresh? && a.step == Store(None) && Moves(cfg, s, a, a.r)) && !(a.Damage? && a.key == key)
    ensures var t := Next(cfg, s, a);
            && HistoryOf(t, key) == HistoryOf(s, key)
            && (key in t.store <==> key in s.store) && (key in s.store ==> t.store[key] == s.store[key])
  {
    hide StepRequest, StepRefresh, Visible, CanStep;
  }

  ghost predicate SightKept(cfg: Config, acts: seq<Action>, n: nat, key: string)
    requires n <= |acts|
  {
    forall i | 0 <= i < n :: KeepsSight(cfg, StateAt(cfg, acts, i), acts[i], key)
  }

  lemma {:induction false} ReachableFull(cfg: Config, acts: seq<Action>, n: nat, id: string)
    requires n <= |acts| && id != "host" && SightKept(cfg, acts, n, Key(Container(id)))
    ensures var s, key := StateAt(cfg, acts, n), Key(Container(id)); FullEntry(s, key) && FullPending(s, key)
  {
    hide Next, Safe, KeepsSight, FullEntry, FullPending, Key;
    if n > 0 {
      ReachableFull(cfg, acts, n - 1, id);
      Reachable(cfg, acts, n - 1);
      NextKeepsFull(cfg, StateAt(cfg, acts, n - 1), acts[n - 1], id);
    } else {
      InitialFull(Key(Container(id)));
    }
  }

  /** And as long as no entry was damaged, expired before a Load or missed by one, the entry
      of a container is exactly the last MAX_SAMPLES samples stored for it. */
  lemma FullBuffer(cfg: Config, acts: seq<Action>, n: nat, id: string)
    requires n <= |acts| && id != "host" && SightKept(cfg, acts, n, Key(Container(id)))
    ensures var s, key := StateAt(cfg, acts, n), Key(Container(id));
            && (key in s.store <==> StoredSamples(cfg, acts, n, key) != [])
            && (key in s.store ==> s.store[key].raw == Buffer(Trim(StoredSamples(cfg, acts, n, key))))
  {
    hide StateAt, StoredSamples, SightKept, FullPending, HistoryOf, Trim, Key;
    ReachableFull(cfg, acts, n, id);
    HistoryIsStored(cfg, acts, n, Key(Container(id)));
  }

  lemma InitialFull(key: string)
    ensures FullEntry(INITIAL, key) && FullPending(INITIAL, key)
  {
  }
}
