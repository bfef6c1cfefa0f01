/** The statistics collector as objects that change in place (internal/stats/collector.go).

    Each method is one lock section, store call, assignment, close or look of the source.
    Requests and goroutines are interleaved by calling them in any order that the program
    counters allow. The ghost model says where that leaves the step system, and Valid()
    ties the objects to it: so whatever holds for every run holds for these objects. */
module Collectors {
  import opened CollectorModel
  import opened CollectorSafety
  import opened Options

  /** The source's `refresh`: `done` tells whether the channel is closed. */
  class RefreshCell {
    var done: bool
    var err: Option<Error>

    constructor ()
      ensures !done && err == None
    {
      done, err := false, None;
    }

    /** Closing a closed channel would panic. */
    method Close()
      requires !done
      modifies this`done
      ensures done
    {
      done := true;
    }
  }

  /** The store as its interface promises it, with the clock that its expiries refer to. */
  class Cache {
    var now: Time
    var entries: map<string, Entry>

    constructor ()
      ensures now == 0 && entries == map[]
    {
      now, entries := 0, map[];
    }

    /** Whether the call fails is decided elsewhere; a missing key is no error. */
    method Get(key: string, fails: bool) returns (raw: Option<Raw>, ok: bool)
      ensures ok == !fails
      ensures raw == if ok && key in entries && now < entries[key].expires then Some(entries[key].raw) else None
    {
      ok := !fails;
      if fails || key !in entries || entries[key].expires <= now {
        return None, ok;
      }
      raw := Some(entries[key].raw);
    }

    method Set(key: string, raw: Raw, ttl: Time)
      modifies this`entries
      ensures entries == old(entries)[key := Entry(raw, now + ttl)]
    {
      entries := entries[key := Entry(raw, now + ttl)];
    }
  }

  class Collector {
    const cfg: Config
    const cache: Cache
    var inflight: map<string, RefreshCell>

    ghost var model: State
    /** The cell of each refresh of the model. */
    ghost var cells: seq<RefreshCell>

    ghost predicate CellsMatch()
      reads this, cells
    {
      && |cells| == |model.refreshes|
      && (forall i, j | 0 <= i < j < |cells| :: cells[i] != cells[j])
      && (forall i | 0 <= i < |cells| ::
            cells[i].done == model.refreshes[i].done && cells[i].err == model.refreshes[i].err)
    }

    ghost predicate InflightMatches()
      reads this
    {
      && (forall k :: k in inflight <==> k in model.inflight)
      && (forall k | k in inflight :: model.inflight[k] < |cells| && inflight[k] == cells[model.inflight[k]])
    }

    ghost predicate Valid()
      reads this, cache, cells
    {
      && CellsMatch() && InflightMatches()
      && cache.now == model.now && cache.entries == model.store
      && Safe(cfg, model)
    }

    /** An interval of 0 asks for the default. */
    constructor (interval: Time, timeout: Time)
      ensures Valid() && fresh(cache) && model == INITIAL && inflight == map[]
      ensures cfg == Config(if interval == 0 then DEFAULT_REFRESH_INTERVAL else interval, timeout)
    {
      cfg := Config(if interval == 0 then DEFAULT_REFRESH_INTERVAL else interval, timeout);
      cache := new Cache();
      inflight := map[];
      model := INITIAL;
      cells := [];
    }

    // ---- Requests ----

    /** The first look of cachedOrRefresh: a value that is there is the answer. */
    method FirstLook(subject: Subject, fails: bool, ghost q: nat) returns (raw: Option<Raw>)
      requires Valid() && q < |model.requests| && model.requests[q] == Request(subject, Asking)
      modifies this`model
      ensures Valid() && model == Next(cfg, old(model), OfRequest(q, FirstGet(fails)))
      ensures model.requests[q].progress == if raw.Some? then Answered(Value(raw.value)) else Joining
    {
      hide Safe;
      var ok: bool;
      raw, ok := cache.Get(Key(subject), fails);
      NextKeepsSafe(cfg, model, OfRequest(q, FirstGet(fails)));
      model := Next(cfg, model, OfRequest(q, FirstGet(fails)));
    }

    /** startRefresh: under the lock, the cell of the running collection or a new one. */
    method StartRefresh(subject: Subject, ghost q: nat) returns (cell: RefreshCell)
      requires Valid() && q < |model.requests| && model.requests[q] == Request(subject, Joining)
      modifies this
      ensures Valid() && model == Next(cfg, old(model), OfRequest(q, Join))
      ensures model.requests[q].progress.Timing? && model.requests[q].progress.r < |cells|
      ensures cell == cells[model.requests[q].progress.r]
      ensures if Key(subject) in old(inflight)
              then cell == old(inflight[Key(subject)]) && inflight == old(inflight) && cells == old(cells)
              else fresh(cell) && inflight == old(inflight)[Key(subject) := cell] && cells == old(cells) + [cell]
    {
      hide Safe, Key, NextRefresh, StepRequest, Visible;
      NextKeepsSafe(cfg, model, OfRequest(q, Join));
      model := Next(cfg, model, OfRequest(q, Join));
      if Key(subject) in inflight {
        return inflight[Key(subject)];
      }
      cell := new RefreshCell();
      inflight := inflight[Key(subject) := cell];
      cells := cells + [cell];
    }

    /** The receive from `done`: it goes ahead when the channel is closed. */
    method TryReceive(cell: RefreshCell, ghost q: nat) returns (closed: bool)
      requires Valid() && q < |model.requests| && model.requests[q].progress.Blocked?
      requires model.requests[q].progress.r < |cells| && cell == cells[model.requests[q].progress.r]
      modifies this`model
      ensures Valid() && model == Next(cfg, old(model), OfRequest(q, Wake))
      ensures closed <==> model.requests[q].progress.Rereading?
    {
      hide Safe;
      closed := cell.done;
      NextKeepsSafe(cfg, model, OfRequest(q, Wake));
      model := Next(cfg, model, OfRequest(q, Wake));
    }

    /** The second look: an error of the store or a value ends the request. */
    method SecondLook(subject: Subject, fails: bool, ghost q: nat) returns (answer: Option<Outcome>)
      requires Valid() && q < |model.requests|
      requires model.requests[q].subject == subject && model.requests[q].progress.Rereading?
      modifies this`model
      ensures Valid() && model == Next(cfg, old(model), OfRequest(q, SecondGet(fails)))
      ensures model.requests[q].progress
           == if answer.Some? then Answered(answer.value) else Judging(old(model.requests[q].progress.r))
    {
      hide Safe;
      var raw, ok := cache.Get(Key(subject), fails);
      if !ok {
        answer := Some(StoreFailed);
      } else if raw.Some? {
        answer := Some(Value(raw.value));
      } else {
        answer := None;
      }
      NextKeepsSafe(cfg, model, OfRequest(q, SecondGet(fails)));
      model := Next(cfg, model, OfRequest(q, SecondGet(fails)));
    }

    /** The last resort: the recorded cause, or the timeout error. It reads `err` only
        after `done` was closed. */
    method Judged(cell: RefreshCell, ghost q: nat) returns (answer: Outcome)
      requires Valid() && q < |model.requests| && model.requests[q].progress.Judging?
      requires model.requests[q].progress.r < |cells| && cell == cells[model.requests[q].progress.r]
      modifies this`model
      ensures Valid() && model == Next(cfg, old(model), OfRequest(q, Judge))
      ensures cell.done && model.requests[q].progress == Answered(answer)
    {
      hide Safe;
      RequestAt(cfg, model, q);
      answer := if cell.err.Some? then CollectFailed(cell.err.value) else TimedOut;
      NextKeepsSafe(cfg, model, OfRequest(q, Judge));
      model := Next(cfg, model, OfRequest(q, Judge));
    }

    // ---- Goroutines ----

    /** loadSamples: a failed Get, a missing entry and unreadable content all count as none. */
    method LoadSamples(key: string, fails: bool) returns (samples: seq<Sample>)
      requires Valid()
      ensures samples == Loaded(Visible(model, key), fails)
    {
      hide Safe;
      var raw, ok := cache.Get(key, fails);
      if !ok || raw.None? || Decode(raw.value).None? {
        return [];
      }
      samples := Decode(raw.value).value;
    }

    /** What refreshContainer is about to store: the sample appended, the buffer trimmed. */
    method LoadAndAppend(subject: Subject, sample: Sample, fails: bool, ghost r: nat) returns (samples: seq<Sample>)
      requires Valid() && r < |cells|
      requires model.refreshes[r].subject == subject && model.refreshes[r].phase == Loading(sample)
      modifies this`model
      ensures Valid() && model == Next(cfg, old(model), OfRefresh(r, Load(fails)))
      ensures model.refreshes[r].phase == Storing(Encode(samples))
    {
      hide Safe, Next, Visible, Loaded, Key, Encode;
      LoadShape(cfg, model, r, fails);
      NextKeepsSafe(cfg, model, OfRefresh(r, Load(fails)));
      samples := LoadSamples(Key(subject), fails);
      samples := samples + [sample];
      if |samples| > MAX_SAMPLES {
        samples := samples[|samples| - MAX_SAMPLES..];
      }
      model := Next(cfg, model, OfRefresh(r, Load(fails)));
    }

    /** The Set at the end of a measurement; one that fails changes nothing. */
    method StoreRaw(subject: Subject, raw: Raw, failure: Option<Error>, ghost r: nat)
      requires Valid() && r < |cells|
      requires model.refreshes[r].subject == subject && model.refreshes[r].phase == Storing(raw)
      modifies this`model, cache
      ensures Valid() && model == Next(cfg, old(model), OfRefresh(r, Store(failure)))
    {
      hide Safe, Key, HistoryOf;
      NextKeepsSafe(cfg, model, OfRefresh(r, Store(failure)));
      model := Next(cfg, model, OfRefresh(r, Store(failure)));
      if failure.None? {
        cache.Set(Key(subject), raw, TTL(subject));
      }
    }

    /** After the first measurement: record why it failed, if it did. */
    method ReportFirst(cell: RefreshCell, error: Option<Error>, ghost r: nat)
      requires Valid() && r < |cells| && cell == cells[r]
      requires model.refreshes[r].phase == Returned(error) && model.refreshes[r].round == 1
      modifies this`model, cell`err
      ensures Valid() && model == Next(cfg, old(model), OfRefresh(r, Report))
      ensures !cell.done && model.refreshes[r].phase.Closing?
    {
      hide Safe;
      NotYetDone(cfg, model, r);
      NextKeepsSafe(cfg, model, OfRefresh(r, Report));
      model := Next(cfg, model, OfRefresh(r, Report));
      if error.Some? {
        cell.err := error;
      }
    }

    /** close(r.done): the channel is still open, whatever the others have done. */
    method CloseDone(cell: RefreshCell, ghost r: nat)
      requires Valid() && r < |cells| && cell == cells[r] && model.refreshes[r].phase.Closing?
      modifies this`model, cell`done
      ensures Valid() && model == Next(cfg, old(model), OfRefresh(r, CollectorModel.Close))
      ensures old(!cell.done) && cell.done
    {
      hide Safe;
      NotYetDone(cfg, model, r);
      NextKeepsSafe(cfg, model, OfRefresh(r, CollectorModel.Close));
      model := Next(cfg, model, OfRefresh(r, CollectorModel.Close));
      cell.Close();
    }

    /** The goroutine's last act: under the lock, delete the entry. It is its own. */
    method RemoveEntry(key: string, ghost r: nat)
      requires Valid() && r < |cells| && model.refreshes[r].phase.Removing? && KeyOf(model, r) == key
      modifies this
      ensures Valid() && model == Next(cfg, old(model), OfRefresh(r, CollectorModel.Remove)) && cells == old(cells)
      ensures key in old(inflight) && old(inflight[key]) == cells[r]
      ensures inflight == old(inflight) - {key}
    {
      hide Safe, Next, Key, KeyOf;
      OwnEntry(cfg, model, r);
      RemoveShape(cfg, model, r);
      NextKeepsSafe(cfg, model, OfRefresh(r, CollectorModel.Remove));
      model := Next(cfg, model, OfRefresh(r, CollectorModel.Remove));
      inflight := inflight - {key};
    }

    // ---- The rest of the world ----

    /** Requests arrive, timers and contexts end, goroutines measure and come back from
        their second measurement: nothing of this touches the objects. */
    method Silent(a: Action)
      requires Valid() && IsSilent(model, a)
      modifies this`model
      ensures Valid() && model == Next(cfg, old(model), a)
    {
      hide Safe, Next, IsSilent;
      SilentShape(cfg, model, a);
      NextKeepsSafe(cfg, model, a);
      model := Next(cfg, model, a);
    }

    method Elapse(d: nat)
      requires Valid()
      modifies this`model, cache
      ensures Valid() && model == Next(cfg, old(model), Tick(d))
    {
      hide Safe;
      NextKeepsSafe(cfg, model, Tick(d));
      model := Next(cfg, model, Tick(d));
      cache.now := cache.now + d;
    }

    /** Somebody else writes something unreadable. */
    method ForeignWrite(key: string, text: string, ttl: Time)
      requires Valid()
      modifies this`model, cache
      ensures Valid() && model == Next(cfg, old(model), Damage(key, text, old(cache.now) + ttl))
    {
      hide Safe;
      NextKeepsSafe(cfg, model, Damage(key, text, cache.now + ttl));
      model := Next(cfg, model, Damage(key, text, cache.now + ttl));
      cache.Set(key, Unreadable(text), ttl);
    }
  }

  /** Before the close of its first round, nothing is announced. */
  lemma NotYetDone(cfg: Config, s: State, r: nat)
    requires Safe(cfg, s) && r < |s.refreshes|
    requires s.refreshes[r].phase.Closing? || (s.refreshes[r].phase.Returned? && s.refreshes[r].round == 1)
    ensures !s.refreshes[r].done
  {
    hide InflightExact, AllRequests, StartsSpaced, TimingOk;
    assert LocalOk(cfg, s.refreshes[r], s.now);
  }

  lemma OwnEntry(cfg: Config, s: State, r: nat)
    requires Safe(cfg, s) && r < |s.refreshes| && s.refreshes[r].phase.Removing?
    ensures KeyOf(s, r) in s.inflight && s.inflight[KeyOf(s, r)] == r
  {
    hide AllLocal, AllRequests, StartsSpaced;
    RemovesOwnEntry(cfg, s, r);
  }

  predicate IsSilent(s: State, a: Action) {
    match a
    case Arrive(_) => true
    case OfRequest(_, move) => move.StartTimer? || move.Cancel? || move.Expire?
    case OfRefresh(r, step) =>
      || step.Begin? || step.Measure? || step.Arm? || step.IntervalOver? || step.ContextOver?
      || (step.Report? && r < |s.refreshes| && s.refreshes[r].round == 2)
    case _ => false
  }

  /** A silent action leaves the store, `inflight`, and every `done` and `err` alone. */
  lemma SilentShape(cfg: Config, s: State, a: Action)
    requires IsSilent(s, a)
    ensures var t := Next(cfg, s, a);
            && t.now == s.now && t.store == s.store && t.inflight == s.inflight && |t.refreshes| == |s.refreshes|
            && forall i | 0 <= i < |s.refreshes| ::
                 t.refreshes[i].done == s.refreshes[i].done && t.refreshes[i].err == s.refreshes[i].err
  {
    hide StepRequest, Visible, StepRefresh;
    if a.OfRefresh? && Moves(cfg, s, a, a.r) {
      SilentStep(cfg, s.refreshes[a.r], s.now, Visible(s, KeyOf(s, a.r)), a.step);
    }
  }

  lemma SilentStep(cfg: Config, f: Refresh, now: Time, seen: Option<Raw>, step: RefreshStep)
    requires CanStep(cfg, f, now, step) && !step.Close? && (step.Report? ==> f.round == 2)
    ensures var g := StepRefresh(cfg, f, now, seen, step); g.done == f.done && g.err == f.err
  {
    hide Trim, Loaded;
  }

  lemma LoadShape(cfg: Config, s: State, r: nat, fails: bool)
    requires r < |s.refreshes| && s.refreshes[r].phase.Loading?
    ensures var f := s.refreshes[r];
            var samples := Trim(Loaded(Visible(s, Key(f.subject)), fails) + [f.phase.sample]);
            Next(cfg, s, OfRefresh(r, Load(fails)))
            == s.(refreshes := s.refreshes[r := f.(phase := Storing(Encode(samples)))])
  {
    hide Loaded, Trim, Visible;
  }

  lemma RemoveShape(cfg: Config, s: State, r: nat)
    requires r < |s.refreshes| && s.refreshes[r].phase.Removing?
    ensures Next(cfg, s, OfRefresh(r, CollectorModel.Remove))
         == s.(inflight := s.inflight - {KeyOf(s, r)}, refreshes := s.refreshes[r := s.refreshes[r].(phase := Gone)])
  {
  }
}
