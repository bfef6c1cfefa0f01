/** The statistics collector as a system of atomic steps (internal/stats/collector.go).

    Requests and collection goroutines interleave freely. Each lock section, store call,
    assignment to a refresh, close and timer is one step; the clock moves between steps.
    A step that its owner cannot take in the current state changes nothing, so every
    sequence of actions is a run. */
module CollectorModel {
  import opened Options

  type Time = int
  type Sample = string
  type Error = string

  const SECOND: Time := 1_000_000_000
  const MINUTE: Time := 60 * SECOND

  const HOST_STATS_KEY := "host_stats"
  const CONTAINER_STATS_SUFFIX := "_stats"
  const HOST_STATS_TTL: Time := 10 * SECOND
  const CONTAINER_STATS_TTL: Time := 60 * SECOND
  const MAX_SAMPLES: nat := 3
  const DEFAULT_REFRESH_INTERVAL: Time := 5 * SECOND

  // ---- What is measured, and where it is kept ----

  datatype Subject = Host | Container(id: string)

  function Key(s: Subject): string {
    match s
    case Host => HOST_STATS_KEY
    case Container(id) => id + CONTAINER_STATS_SUFFIX
  }

  function TTL(s: Subject): Time {
    if s.Host? then HOST_STATS_TTL else CONTAINER_STATS_TTL
  }

  /** The stored text, by how it reads back. The codec is abstract: a buffer decodes to the
      samples that were encoded, everything else does not decode to a buffer. */
  datatype Raw = Figures(text: string) | Buffer(samples: seq<Sample>) | Unreadable(text: string)

  function Encode(samples: seq<Sample>): Raw {
    Buffer(samples)
  }

  function Decode(raw: Raw): Option<seq<Sample>> {
    if raw.Buffer? then Some(raw.samples) else None
  }

  datatype Entry = Entry(raw: Raw, expires: Time)

  // ---- Goroutines and requests ----

  /** Where a collection goroutine stands. Two rounds of Measuring to Returned are run. */
  datatype Phase =
    | Spawned
    | Measuring
    | Loading(sample: Sample)
    | Storing(raw: Raw)
    | Returned(error: Option<Error>)
    | Closing
    | Closed
    | Waiting(armed: Time)
    | Removing
    | Gone

  /** What became of the first measurement. */
  datatype First = Pending | Stored(at: Time) | Failed(error: Error)

  /** `done` and `err` are the fields of the source's refresh; the last four record its past. */
  datatype Refresh = Refresh(
    subject: Subject, started: Time, deadline: Time, phase: Phase, done: bool, err: Option<Error>,
    round: nat, first: First, closes: nat, errWrites: nat)

  datatype Outcome = Value(raw: Raw) | CollectFailed(error: Error) | StoreFailed | Cancelled | TimedOut

  datatype Progress =
    | Asking
    | Joining
    | Timing(r: nat)
    | Blocked(r: nat, timer: Time)
    | Rereading(r: nat)
    | Judging(r: nat)
    | Answered(outcome: Outcome)

  datatype Request = Request(subject: Subject, progress: Progress)

  /** `history` records, per key, the samples stored so far. */
  datatype State = State(
    now: Time, store: map<string, Entry>, inflight: map<string, nat>, refreshes: seq<Refresh>, requests: seq<Request>,
    history: map<string, seq<Sample>>)

  const INITIAL := State(0, map[], map[], [], [], map[])

  datatype Config = Config(interval: Time, timeout: Time)

  // ---- Steps ----

  datatype Measurement = Measured(sample: Sample) | NotMeasured(error: Error)

  datatype RefreshStep =
    | Begin
    | Measure(result: Measurement)
    | Load(failed: bool)
    | Store(failure: Option<Error>)
    | Report
    | Close
    | Arm
    | IntervalOver
    | ContextOver
    | Remove

  datatype RequestStep =
    | FirstGet(failed: bool)
    | Join
    | StartTimer
    | Wake
    | Cancel
    | Expire
    | SecondGet(failed: bool)
    | Judge

  /** `Damage` is a foreign write of content that does not decode, with any expiry. A
      container is never called "host". */
  datatype Action =
    | Tick(d: nat)
    | Damage(key: string, text: string, expires: Time)
    | Arrive(subject: Subject)
    | OfRefresh(r: nat, step: RefreshStep)
    | OfRequest(q: nat, move: RequestStep)

  function Visible(s: State, key: string): Option<Raw> {
    if key in s.store && s.now < s.store[key].expires then Some(s.store[key].raw) else None
  }

  /** The last MAX_SAMPLES samples. */
  function Trim(samples: seq<Sample>): seq<Sample> {
    if |samples| > MAX_SAMPLES then samples[|samples| - MAX_SAMPLES..] else samples
  }

  /** What loadSamples makes of a Get: failures and unreadable content count as nothing. */
  function Loaded(seen: Option<Raw>, failed: bool): seq<Sample> {
    if failed || seen.None? || Decode(seen.value).None? then [] else Decode(seen.value).value
  }

  predicate CanStep(cfg: Config, f: Refresh, now: Time, step: RefreshStep) {
    match step
    case Begin => f.phase.Spawned?
    case Measure(_) => f.phase.Measuring?
    case Load(_) => f.phase.Loading?
    case Store(_) => f.phase.Storing?
    case Report => f.phase.Returned?
    case Close => f.phase.Closing?
    case Arm => f.phase.Closed?
    case IntervalOver => f.phase.Waiting? && now >= f.phase.armed + cfg.interval
    case ContextOver => f.phase.Waiting? && now >= f.deadline
    case Remove => f.phase.Removing?
  }

  /** What a step does to the goroutine's own record; `seen` is what a Get shows it. */
  function StepRefresh(cfg: Config, f: Refresh, now: Time, seen: Option<Raw>, step: RefreshStep): Refresh
    requires CanStep(cfg, f, now, step)
  {
    match step
    case Begin => f.(phase := Measuring, round := 1, deadline := now + cfg.interval + MINUTE)
    case Measure(NotMeasured(e)) => f.(phase := Returned(Some(e)))
    case Measure(Measured(x)) => f.(phase := if f.subject.Host? then Storing(Figures(x)) else Loading(x))
    case Load(failed) => f.(phase := Storing(Encode(Trim(Loaded(seen, failed) + [f.phase.sample]))))
    case Store(failure) =>
      f.(phase := Returned(failure), first := if f.round == 1 && failure.None? then Stored(now) else f.first)
    case Report =>
      if f.round != 1 then f.(phase := Removing)
      else if f.phase.error.None? then f.(phase := Closing)
      else
        var cause := f.phase.error.value;
        f.(phase := Closing, err := Some(cause), first := Failed(cause), errWrites := f.errWrites + 1)
    case Close => f.(phase := Closed, done := true, closes := f.closes + 1)
    case Arm => f.(phase := Waiting(now))
    case IntervalOver => f.(phase := Measuring, round := 2)
    case ContextOver => f.(phase := Removing)
    case Remove => f.(phase := Gone)
  }

  function HistoryOf(s: State, key: string): seq<Sample> {
    if key in s.history then s.history[key] else []
  }

  /** A successful Set, seen from the store and from the history of stored samples. */
  function Written(s: State, f: Refresh): State
    requires f.phase.Storing?
  {
    var key := Key(f.subject);
    var raw := f.phase.raw;
    s.(store := s.store[key := Entry(raw, s.now + TTL(f.subject))],
       history := if raw.Buffer? && raw.samples != []
                  then s.history[key := HistoryOf(s, key) + [raw.samples[|raw.samples| - 1]]] else s.history)
  }

  function NextRefresh(cfg: Config, s: State, r: nat, step: RefreshStep): State {
    if r >= |s.refreshes| || !CanStep(cfg, s.refreshes[r], s.now, step) then s
    else
      var f := s.refreshes[r];
      var g := StepRefresh(cfg, f, s.now, Visible(s, Key(f.subject)), step);
      var t := if step.Store? && step.failure.None? then Written(s, f)
               else if step.Remove? then s.(inflight := s.inflight - {Key(f.subject)})
               else s;
      t.(refreshes := s.refreshes[r := g])
  }

  /** startRefresh under the lock: the running refresh, or a new one. */
  function Joined(s: State, subject: Subject): (State, nat) {
    var key := Key(subject);
    if key in s.inflight then (s, s.inflight[key])
    else
      var r := Refresh(subject, s.now, s.now, Spawned, false, None, 0, Pending, 0, 0);
      (s.(inflight := s.inflight[key := |s.refreshes|], refreshes := s.refreshes + [r]), |s.refreshes|)
  }

  function EffectiveTimeout(cfg: Config): Time {
    if cfg.timeout <= 0 then MINUTE else cfg.timeout
  }

  function SetProgress(s: State, q: nat, p: Progress): State
    requires q < |s.requests|
  {
    s.(requests := s.requests[q := s.requests[q].(progress := p)])
  }

  /** The progress of a request after a step that touches nothing else. */
  function StepRequest(cfg: Config, s: State, x: Request, step: RequestStep): Progress {
    var p := x.progress;
    var seen := Visible(s, Key(x.subject));
    match step
    case FirstGet(failed) =>
      if !p.Asking? then p else if !failed && seen.Some? then Answered(Value(seen.value)) else Joining
    case Join => p
    case StartTimer => if p.Timing? then Blocked(p.r, s.now + EffectiveTimeout(cfg)) else p
    case Wake => if p.Blocked? && p.r < |s.refreshes| && s.refreshes[p.r].done then Rereading(p.r) else p
    case Cancel => if p.Blocked? then Answered(Cancelled) else p
    case Expire => if p.Blocked? && s.now >= p.timer then Answered(TimedOut) else p
    case SecondGet(failed) =>
      if !p.Rereading? then p
      else if failed then Answered(StoreFailed)
      else if seen.Some? then Answered(Value(seen.value))
      else Judging(p.r)
    case Judge =>
      if !p.Judging? || p.r >= |s.refreshes| then p
      else match s.refreshes[p.r].err
        case Some(e) => Answered(CollectFailed(e))
        case None => Answered(TimedOut)
  }

  function NextRequest(cfg: Config, s: State, q: nat, step: RequestStep): State {
    if q >= |s.requests| then s
    else if step.Join? then
      if s.requests[q].progress.Joining? then
        var (t, r) := Joined(s, s.requests[q].subject);
        SetProgress(t, q, Timing(r))
      else s
    else SetProgress(s, q, StepRequest(cfg, s, s.requests[q], step))
  }

  function Next(cfg: Config, s: State, a: Action): State {
    match a
    case Tick(d) => s.(now := s.now + d)
    case Damage(key, text, expires) => s.(store := s.store[key := Entry(Unreadable(text), expires)])
    case Arrive(subject) =>
      if subject == Container("host") then s else s.(requests := s.requests + [Request(subject, Asking)])
    case OfRefresh(r, step) => NextRefresh(cfg, s, r, step)
    case OfRequest(q, move) => NextRequest(cfg, s, q, move)
  }

  /** The state of a run after its first n actions. */
  function StateAt(cfg: Config, acts: seq<Action>, n: nat): State
    requires n <= |acts|
  {
    if n == 0 then INITIAL else Next(cfg, StateAt(cfg, acts, n - 1), acts[n - 1])
  }
}
