/** The season backfill script (scripts/update-tv-episodes.ts): an adaptive
    concurrency limit, a bounded retry policy, a queue with an in-flight
    admission check, a bulk-write buffer, and batching in groups of 50.
    Asynchrony is modelled sequentially: an event schedule says when the
    monitor ticks, which in-flight show completes next, and when the
    dispatcher wakes up to admit more work. */
module Backfill {
  import opened Prelude
  import opened Catalog

  const InitialLimit: int := 25
  const MaxLimit: int := 50
  const MinLimit: int := 10
  const BatchSize: nat := 50
  const BulkUpdateSize: nat := 100
  const RetryAttempts: int := 3
  const RetryDelay: int := 200
  const RateLimitWait: int := 1000

  predicate InRange(limit: int) { MinLimit <= limit <= MaxLimit }

  /** What the monitor reads from the host. */
  datatype Signal = Strained | Relaxed | Steady

  /** Memory use above 80% or load above 0.8 strains; memory below 70% of
      that threshold together with load below 0.6 relaxes. */
  function Classify(memoryUsage: real, loadPercent: real): (s: Signal)
    ensures s == Strained <==> memoryUsage > 0.8 || loadPercent > 0.8
    ensures s == Relaxed <==> memoryUsage < 0.56 && loadPercent < 0.6
  {
    if memoryUsage > 0.8 || loadPercent > 0.8 then Strained
    else if memoryUsage < 0.8 * 0.7 && loadPercent < 0.6 then Relaxed
    else Steady
  }

  /** One monitor tick: shrink by a fifth when strained, grow by a fifth
      when relaxed, rounding down and clamping to [10, 50]. */
  function AdjustLimit(limit: int, s: Signal): (r: int)
    ensures InRange(limit) ==> InRange(r)
    ensures s == Steady ==> r == limit
    ensures s == Strained && InRange(limit) ==> r <= limit && (r < limit <==> limit > MinLimit)
    ensures s == Relaxed && InRange(limit) ==> r >= limit && (r > limit <==> limit < MaxLimit)
  {
    match s
    case Strained => Max(MinLimit, limit * 4 / 5)
    case Relaxed => Min(MaxLimit, limit * 6 / 5)
    case Steady => limit
  }

  /** The limit after a run of ticks. */
  function LimitAfter(limit: int, signals: seq<Signal>): int
  {
    if |signals| == 0 then limit else AdjustLimit(LimitAfter(limit, signals[..|signals| - 1]), signals[|signals| - 1])
  }

  /** Starting from 25, no sequence of ticks takes the limit out of [10, 50]. */
  lemma {:induction false} LimitStaysInRange(signals: seq<Signal>)
    ensures InRange(LimitAfter(InitialLimit, signals))
  {
    if |signals| > 0 {
      LimitStaysInRange(signals[..|signals| - 1]);
    }
  }

  /** A show's details as the catalog API returns them; the seasons field
      may be absent. */
  datatype Details = Details(seasons: Option<seq<Season>>)

  /** One reply of the catalog API. */
  datatype Response = Ok(details: Details) | RateLimited | Error

  /** How a fetch with retries ends: the details, a rethrown error, or no
      end within the replies given. */
  datatype FetchResult = Got(details: Details) | GaveUp | Unsettled

  /** The end of a fetch, how many replies it used, and the waits before
      each retry. */
  datatype Fetch = Fetch(result: FetchResult, used: nat, delays: seq<int>)

  /** The error replies (not rate limits) among the first `n` replies. */
  function ErrorsBefore(rs: seq<Response>, n: nat): nat
    requires n <= |rs|
  {
    if n == 0 then 0 else ErrorsBefore(rs, n - 1) + (if rs[n - 1].Error? then 1 else 0)
  }

  lemma {:induction false} ErrorsShift(rs: seq<Response>, n: nat)
    requires n < |rs|
    ensures ErrorsBefore(rs, n + 1) == (if rs[0].Error? then 1 else 0) + ErrorsBefore(rs[1..], n)
  {
    if n > 0 {
      ErrorsShift(rs, n - 1);
    }
  }

  /** What a fetch that started at `attempt` did with the replies: it read
      `used` of them, saw the details only in the last one read (if at all),
      stopped at the details while errors had not used up the attempts,
      rethrew on the error that used them up, and waited before each retry
      1000 ms after a 429 and 200 ms times the attempt after an error. */
  predicate FetchSpec(rs: seq<Response>, attempt: int, r: Fetch)
  {
    && r.used <= |rs|
    && |r.delays| + (if r.result.Unsettled? then 0 else 1) == r.used
    && (forall i :: 0 <= i < |r.delays| ==> !rs[i].Ok?)
    && (r.result.Got? ==> (rs[r.used - 1] == Ok(r.result.details) && ErrorsBefore(rs, r.used - 1) <= RetryAttempts - attempt))
    && (r.result.GaveUp? ==> (rs[r.used - 1].Error? && ErrorsBefore(rs, r.used) == RetryAttempts - attempt + 1))
    && (r.result.Unsettled? ==> (r.used == |rs| && ErrorsBefore(rs, |rs|) <= RetryAttempts - attempt))
    && (forall i :: 0 <= i < |r.delays| ==>
          r.delays[i] == if rs[i].RateLimited? then RateLimitWait else RetryDelay * (attempt + ErrorsBefore(rs, i)))
  }

  /** `fetchTVShowWithRetries(id, attempt)` over the replies the API gives,
      in order: a 429 waits 1000 ms and retries at the same attempt; any
      other error retries after 200 ms times the attempt while the attempt
      is below 3, and is rethrown on the third. */
  function FetchWithRetries(rs: seq<Response>, attempt: int): (r: Fetch)
    requires 1 <= attempt <= RetryAttempts
    ensures FetchSpec(rs, attempt, r)
    decreases |rs|
  {
    if |rs| == 0 then Fetch(Unsettled, 0, [])
    else match rs[0]
      case Ok(d) => Fetch(Got(d), 1, [])
      case RateLimited =>
        var rest := FetchWithRetries(rs[1..], attempt);
        var r := Fetch(rest.result, rest.used + 1, [RateLimitWait] + rest.delays);
        FetchStep(rs, attempt, attempt, rest, r);
        r
      case Error =>
        if attempt < RetryAttempts then
          var rest := FetchWithRetries(rs[1..], attempt + 1);
          var r := Fetch(rest.result, rest.used + 1, [RetryDelay * attempt] + rest.delays);
          FetchStep(rs, attempt, attempt + 1, rest, r);
          r
        else
          assert ErrorsBefore(rs, 1) == 1;
          Fetch(GaveUp, 1, [])
  }

  /** A retry: what holds of the remaining replies holds of all of them. */
  lemma FetchStep(rs: seq<Response>, attempt: int, next: int, rest: Fetch, r: Fetch)
    requires |rs| > 0 && !rs[0].Ok? && next == attempt + (if rs[0].Error? then 1 else 0)
    requires FetchSpec(rs[1..], next, rest)
    requires r == Fetch(rest.result, rest.used + 1,
                        [if rs[0].RateLimited? then RateLimitWait else RetryDelay * attempt] + rest.delays)
    ensures FetchSpec(rs, attempt, r)
  {
    FetchStepOutcome(rs, attempt, next, rest, r);
    FetchStepDelays(rs, attempt, next, rest, r);
  }

  /** The outcome part of `FetchStep`. */
  lemma FetchStepOutcome(rs: seq<Response>, attempt: int, next: int, rest: Fetch, r: Fetch)
    requires |rs| > 0 && !rs[0].Ok? && next == attempt + (if rs[0].Error? then 1 else 0)
    requires FetchSpec(rs[1..], next, rest)
    requires r == Fetch(rest.result, rest.used + 1,
                        [if rs[0].RateLimited? then RateLimitWait else RetryDelay * attempt] + rest.delays)
    ensures r.result.Got? ==> (rs[r.used - 1] == Ok(r.result.details) && ErrorsBefore(rs, r.used - 1) <= RetryAttempts - attempt)
    ensures r.result.GaveUp? ==> (rs[r.used - 1].Error? && ErrorsBefore(rs, r.used) == RetryAttempts - attempt + 1)
    ensures r.result.Unsettled? ==> (r.used == |rs| && ErrorsBefore(rs, |rs|) <= RetryAttempts - attempt)
  {
    if r.result.Got? {
      ErrorsShift(rs, rest.used - 1);
      assert rs[1..][rest.used - 1] == rs[r.used - 1];
    }
    if r.result.GaveUp? {
      ErrorsShift(rs, rest.used);
      assert rs[1..][rest.used - 1] == rs[r.used - 1];
    }
    if r.result.Unsettled? {
      ErrorsShift(rs, |rs| - 1);
    }
  }

  /** The waits part of `FetchStep`. */
  lemma FetchStepDelays(rs: seq<Response>, attempt: int, next: int, rest: Fetch, r: Fetch)
    requires |rs| > 0 && !rs[0].Ok? && next == attempt + (if rs[0].Error? then 1 else 0)
    requires FetchSpec(rs[1..], next, rest)
    requires r == Fetch(rest.result, rest.used + 1,
                        [if rs[0].RateLimited? then RateLimitWait else RetryDelay * attempt] + rest.delays)
    ensures forall i :: 0 <= i < |r.delays| ==> !rs[i].Ok?
    ensures forall i :: 0 <= i < |r.delays| ==>
      r.delays[i] == if rs[i].RateLimited? then RateLimitWait else RetryDelay * (attempt + ErrorsBefore(rs, i))
  {
    forall i | 0 <= i < |r.delays|
      ensures !rs[i].Ok?
      ensures r.delays[i] == if rs[i].RateLimited? then RateLimitWait else RetryDelay * (attempt + ErrorsBefore(rs, i))
    {
      if i > 0 {
        ErrorsShift(rs, i - 1);
        assert rs[1..][i - 1] == rs[i];
        assert r.delays[i] == rest.delays[i - 1];
      }
    }
  }

  /** A fetch that rethrows has seen exactly three errors and never the
      details. */
  lemma GiveUpAfterThreeErrors(rs: seq<Response>)
    requires FetchWithRetries(rs, 1).result.GaveUp?
    ensures var r := FetchWithRetries(rs, 1);
      ErrorsBefore(rs, r.used) == RetryAttempts && forall i :: 0 <= i < r.used ==> !rs[i].Ok?
  {
  }

  /** A rate limit never uses up an attempt: a run of 429 replies followed
      by the details ends with the details, after a 1000 ms wait per 429. */
  lemma {:induction false} RateLimitsDoNotCount(k: nat, d: Details, attempt: int)
    requires 1 <= attempt <= RetryAttempts
    ensures FetchWithRetries(seq(k, i => RateLimited) + [Ok(d)], attempt)
      == Fetch(Got(d), k + 1, seq(k, i => RateLimitWait))
  {
    var rs := seq(k, i => RateLimited) + [Ok(d)];
    if k > 0 {
      RateLimitsDoNotCount(k - 1, d, attempt);
      assert rs[1..] == seq(k - 1, i => RateLimited) + [Ok(d)];
      assert [RateLimitWait] + seq(k - 1, i => RateLimitWait) == seq(k, i => RateLimitWait);
    }
  }

  /** The outcome of `processTVShow` for one show. */
  datatype ShowResult = Updated(seasons: seq<Season>) | NoSeasons | Failed

  /** `processTVShow`: details with at least one season are an update,
      details without are a success with nothing to write, a rethrown error
      is a failure; `None` while the fetch has not settled. */
  function ProcessTvShow(rs: seq<Response>): (r: Option<ShowResult>)
    ensures r.None? <==> FetchWithRetries(rs, 1).result.Unsettled?
    ensures r == Some(Failed) <==> FetchWithRetries(rs, 1).result.GaveUp?
    ensures r == Some(NoSeasons) <==>
      var f := FetchWithRetries(rs, 1).result;
      f.Got? && (f.details.seasons.None? || |f.details.seasons.value| == 0)
    ensures r.Some? && r.value.Updated? ==>
      |r.value.seasons| > 0 && FetchWithRetries(rs, 1).result.details.seasons == Some(r.value.seasons)
  {
    match FetchWithRetries(rs, 1).result
    case Unsettled => None
    case GaveUp => Some(Failed)
    case Got(d) => if d.seasons.Some? && |d.seasons.value| > 0 then Some(Updated(d.seasons.value)) else Some(NoSeasons)
  }

  /** One entry of the bulk write. */
  datatype Entry = Entry(tvId: int, seasons: seq<Season>)

  /** A show taken off the queue: which, how many were in flight before it,
      and the limit at that moment. */
  datatype Admission = Admission(id: int, inFlightBefore: nat, limit: int)

  /** What happens while the dispatcher waits: a monitor tick, the
      completion of the in-flight show at index `pick` (modulo their number),
      or the 100 ms timer waking the dispatcher up. */
  datatype Event = Tick(signal: Signal) | Finish(pick: nat) | Wake

  /** The state of `processBatch`. `flushes` are the buffer snapshots handed
      to the bulk write, in order; `completed` the shows in completion order. */
  datatype BatchState = BatchState(
    queue: seq<int>,
    inFlight: seq<int>,
    limit: int,
    success: nat,
    failed: nat,
    buffer: seq<Entry>,
    flushes: seq<seq<Entry>>,
    admissions: seq<Admission>,
    completed: seq<int>)

  function Ids(adms: seq<Admission>): (r: seq<int>)
    ensures |r| == |adms| && forall i :: 0 <= i < |adms| ==> r[i] == adms[i].id
  {
    seq(|adms|, i requires 0 <= i < |adms| => adms[i].id)
  }

  lemma IdsAppend(a: seq<Admission>, b: seq<Admission>)
    ensures Ids(a + b) == Ids(a) + Ids(b)
  {
  }

  /** Every admission happened below the limit of its moment. */
  predicate AdmittedBelowLimit(adms: seq<Admission>)
  {
    forall i :: 0 <= i < |adms| ==> adms[i].inFlightBefore < adms[i].limit
  }

  /** The inner fill loop: admit from the head of the queue while fewer
      shows than the limit are in flight. */
  function Fill(st: BatchState): (r: BatchState)
    ensures r.limit == st.limit && r.success == st.success && r.failed == st.failed
    ensures r.buffer == st.buffer && r.flushes == st.flushes && r.completed == st.completed
    ensures |r.queue| == 0 || |r.inFlight| >= r.limit
    decreases |st.queue|
  {
    if |st.queue| > 0 && |st.inFlight| < st.limit then
      Fill(st.(queue := st.queue[1..], inFlight := st.inFlight + [st.queue[0]],
               admissions := st.admissions + [Admission(st.queue[0], |st.inFlight|, st.limit)]))
    else
      st
  }

  /** What a fill admits: earlier admissions are kept, the new ones are the
      head of the queue in order, and they join the in-flight shows. */
  lemma {:induction false} FillAdmits(st: BatchState)
    ensures |Fill(st).admissions| >= |st.admissions| && Fill(st).admissions[..|st.admissions|] == st.admissions
    ensures Ids(Fill(st).admissions[|st.admissions|..]) + Fill(st).queue == st.queue
    ensures Fill(st).inFlight == st.inFlight + Ids(Fill(st).admissions[|st.admissions|..])
    decreases |st.queue|
  {
    if |st.queue| > 0 && |st.inFlight| < st.limit {
      var next := st.(queue := st.queue[1..], inFlight := st.inFlight + [st.queue[0]],
                      admissions := st.admissions + [Admission(st.queue[0], |st.inFlight|, st.limit)]);
      FillAdmits(next);
      var r := Fill(next);
      assert r == Fill(st);
      var tail := r.admissions[|next.admissions|..];
      assert r.admissions[|st.admissions|..] == [next.admissions[|st.admissions|]] + tail;
      IdsAppend([next.admissions[|st.admissions|]], tail);
      var head := [st.queue[0]];
      assert Ids(r.admissions[|st.admissions|..]) == head + Ids(tail);
      AppendAssoc(st.inFlight, head, Ids(tail));
      AppendAssoc(head, Ids(tail), r.queue);
      assert st.queue == head + st.queue[1..];
      assert r.admissions[..|st.admissions|] == next.admissions[..|st.admissions|];
    } else {
      assert Fill(st) == st;
      assert st.admissions[|st.admissions|..] == [];
    }
  }

  /** Every show a fill admits is admitted below the limit of its moment. */
  lemma {:induction false} FillAdmitsBelowLimit(st: BatchState)
    requires AdmittedBelowLimit(st.admissions)
    ensures AdmittedBelowLimit(Fill(st).admissions)
    decreases |st.queue|
  {
    if |st.queue| > 0 && |st.inFlight| < st.limit {
      var next := st.(queue := st.queue[1..], inFlight := st.inFlight + [st.queue[0]],
                      admissions := st.admissions + [Admission(st.queue[0], |st.inFlight|, st.limit)]);
      FillAdmitsBelowLimit(next);
    }
  }

  /** A lowered limit admits nothing while the shows already in flight
      exceed it. */
  lemma FillRespectsLimit(st: BatchState)
    requires |st.inFlight| >= st.limit
    ensures Fill(st) == st
  {
  }

  /** In-flight work can exceed a limit lowered after it was admitted: 25
      shows in flight, then one strained tick takes the limit to 20. */
  lemma LoweredLimitCanBeExceeded(st: BatchState)
    requires st.limit == InitialLimit && |st.inFlight| == 25
    ensures var after := st.(limit := AdjustLimit(st.limit, Strained));
      after.limit == 20 && |after.inFlight| > after.limit && Fill(after) == after
  {
  }

  /** What a completed show puts into the buffer. */
  function Staged(id: int, result: ShowResult): seq<Entry>
  {
    if result.Updated? && |result.seasons| > 0 then [Entry(id, result.seasons)] else []
  }

  /** What the shows completed so far put into the buffer, in order. */
  function StagedAll(ids: seq<int>, results: int -> ShowResult): seq<Entry>
  {
    if |ids| == 0 then [] else StagedAll(ids[..|ids| - 1], results) + Staged(ids[|ids| - 1], results(ids[|ids| - 1]))
  }

  /** The successes among the shows completed so far. */
  function Successes(ids: seq<int>, results: int -> ShowResult): nat
  {
    if |ids| == 0 then 0 else Successes(ids[..|ids| - 1], results) + (if results(ids[|ids| - 1]).Failed? then 0 else 1)
  }

  /** The `.then`/`.catch` of one in-flight show: count it, and stage its
      seasons; a buffer that reaches 100 entries is snapshotted, cleared and
      handed to the bulk write, whose failure is swallowed. */
  function Complete(st: BatchState, pick: nat, results: int -> ShowResult): (r: BatchState)
    requires |st.inFlight| > 0
    ensures |r.inFlight| == |st.inFlight| - 1
    ensures r.completed == st.completed + [st.inFlight[pick % |st.inFlight|]]
    ensures multiset(r.inFlight) + multiset{st.inFlight[pick % |st.inFlight|]} == multiset(st.inFlight)
    ensures r.queue == st.queue && r.limit == st.limit && r.admissions == st.admissions
  {
    var k := pick % |st.inFlight|;
    var id := st.inFlight[k];
    assert st.inFlight == st.inFlight[..k] + [id] + st.inFlight[k + 1..];
    var done := st.(inFlight := st.inFlight[..k] + st.inFlight[k + 1..], completed := st.completed + [id]);
    match results(id)
    case Failed => done.(failed := st.failed + 1)
    case _ =>
      var buffer := st.buffer + Staged(id, results(id));
      if |buffer| >= BulkUpdateSize then done.(success := st.success + 1, buffer := [], flushes := st.flushes + [buffer])
      else done.(success := st.success + 1, buffer := buffer)
  }

  /** The bookkeeping `processBatch` keeps: every show of the batch is
      queued, in flight or completed; the counters count the completed;
      what was staged is in the flushes or the buffer; every flush holds
      exactly 100 entries and the buffer fewer. */
  predicate Good(st: BatchState, batch: seq<int>, results: int -> ShowResult)
  {
    && Ids(st.admissions) + st.queue == batch
    && multiset(Ids(st.admissions)) == multiset(st.inFlight) + multiset(st.completed)
    && st.success + st.failed == |st.completed|
    && st.success == Successes(st.completed, results)
    && Flatten(st.flushes) + st.buffer == StagedAll(st.completed, results)
    && (forall i :: 0 <= i < |st.flushes| ==> |st.flushes[i]| == BulkUpdateSize)
    && |st.buffer| < BulkUpdateSize
    && AdmittedBelowLimit(st.admissions)
    && InRange(st.limit)
  }

  lemma FillGood(st: BatchState, batch: seq<int>, results: int -> ShowResult)
    requires Good(st, batch, results)
    ensures Good(Fill(st), batch, results)
    ensures |Fill(st).queue| + |Fill(st).inFlight| == |st.queue| + |st.inFlight| && |Fill(st).queue| <= |st.queue|
  {
    var r := Fill(st);
    FillAdmits(st);
    FillAdmitsBelowLimit(st);
    var added := Ids(r.admissions[|st.admissions|..]);
    assert r.admissions == st.admissions + r.admissions[|st.admissions|..];
    IdsAppend(st.admissions, r.admissions[|st.admissions|..]);
    assert Ids(r.admissions) == Ids(st.admissions) + added;
    AppendAssoc(Ids(st.admissions), added, r.queue);
    assert multiset(Ids(r.admissions)) == multiset(Ids(st.admissions)) + multiset(added);
    assert multiset(r.inFlight) == multiset(st.inFlight) + multiset(added);
    assert |r.queue| + |added| == |st.queue|;
  }

  lemma CompleteGood(st: BatchState, pick: nat, batch: seq<int>, results: int -> ShowResult)
    requires Good(st, batch, results) && |st.inFlight| > 0
    ensures Good(Complete(st, pick, results), batch, results)
  {
    var r := Complete(st, pick, results);
    var id := st.inFlight[pick % |st.inFlight|];
    CompletedStep(st.completed, id, results);
    CompleteBuffer(st, pick, results);
    assert multiset(Ids(r.admissions)) == multiset(r.inFlight) + multiset(r.completed);
  }

  /** A completion keeps the staged entries split into full flushes and a
      buffer of fewer than 100. */
  lemma CompleteBuffer(st: BatchState, pick: nat, results: int -> ShowResult)
    requires |st.inFlight| > 0
    requires Flatten(st.flushes) + st.buffer == StagedAll(st.completed, results)
    requires forall i :: 0 <= i < |st.flushes| ==> |st.flushes[i]| == BulkUpdateSize
    requires |st.buffer| < BulkUpdateSize
    ensures var r := Complete(st, pick, results);
      && Flatten(r.flushes) + r.buffer == StagedAll(r.completed, results)
      && (forall i :: 0 <= i < |r.flushes| ==> |r.flushes[i]| == BulkUpdateSize)
      && |r.buffer| < BulkUpdateSize
  {
    var r := Complete(st, pick, results);
    var id := st.inFlight[pick % |st.inFlight|];
    CompletedStep(st.completed, id, results);
    var staged := StagedAll(st.completed, results);
    assert StagedAll(r.completed, results) == staged + Staged(id, results(id));
    if results(id).Failed? {
      assert r.flushes == st.flushes && r.buffer == st.buffer;
      assert Staged(id, results(id)) == [] && staged + [] == staged;
    } else {
      var buffer := st.buffer + Staged(id, results(id));
      AppendAssoc(Flatten(st.flushes), st.buffer, Staged(id, results(id)));
      if |buffer| >= BulkUpdateSize {
        FlattenAppend(st.flushes, buffer);
        assert r.flushes == st.flushes + [buffer] && r.buffer == [];
        assert Flatten(r.flushes) + r.buffer == Flatten(st.flushes) + buffer;
        assert |buffer| == BulkUpdateSize;
        forall i | 0 <= i < |r.flushes|
          ensures |r.flushes[i]| == BulkUpdateSize
        {
          if i < |st.flushes| {
            assert r.flushes[i] == st.flushes[i];
          }
        }
      } else {
        assert r.flushes == st.flushes && r.buffer == buffer;
      }
    }
  }

  /** One more completed show: the success count, the staged entries and
      the multiset of completed shows grow by its share. */
  lemma CompletedStep(completed: seq<int>, id: int, results: int -> ShowResult)
    ensures Successes(completed + [id], results) == Successes(completed, results) + (if results(id).Failed? then 0 else 1)
    ensures StagedAll(completed + [id], results) == StagedAll(completed, results) + Staged(id, results(id))
    ensures multiset(completed + [id]) == multiset(completed) + multiset{id}
  {
    assert (completed + [id])[..|completed|] == completed;
  }

  /** The initial state of a batch. */
  function Start(batch: seq<int>, limit: int): BatchState
  {
    BatchState(batch, [], limit, 0, 0, [], [], [], [])
  }

  /** The dispatcher loop of `processBatch`: run the schedule's events, and
      once it is used up fill and complete the oldest in-flight show until
      nothing is queued or in flight. */
  method RunSchedule(start: BatchState, schedule: seq<Event>, batch: seq<int>, results: int -> ShowResult)
    returns (st: BatchState)
    requires Good(start, batch, results)
    ensures Good(st, batch, results) && |st.queue| == 0 && |st.inFlight| == 0
  {
    st := start;
    var sched := schedule;
    while |st.queue| > 0 || |st.inFlight| > 0
      invariant Good(st, batch, results)
      decreases |sched|, 2 * |st.queue| + |st.inFlight|
    {
      if |sched| > 0 {
        var event := sched[0];
        sched := sched[1..];
        match event
        case Tick(signal) =>
          st := st.(limit := AdjustLimit(st.limit, signal));
        case Finish(pick) =>
          if |st.inFlight| > 0 {
            CompleteGood(st, pick, batch, results);
            st := Complete(st, pick, results);
          }
        case Wake =>
          FillGood(st, batch, results);
          st := Fill(st);
      } else {
        ghost var before := 2 * |st.queue| + |st.inFlight|;
        FillGood(st, batch, results);
        st := Fill(st);
        assert 2 * |st.queue| + |st.inFlight| <= before;
        CompleteGood(st, 0, batch, results);
        st := Complete(st, 0, results);
        assert 2 * |st.queue| + |st.inFlight| < before;
      }
    }
  }

  /** The final write of a partial buffer: a non-empty buffer becomes the
      last flush. */
  function FlushRest(st: BatchState): (r: BatchState)
    ensures Flatten(r.flushes) == Flatten(st.flushes) + st.buffer && r.buffer == []
    ensures |r.flushes| == |st.flushes| + (if |st.buffer| > 0 then 1 else 0)
    ensures r.flushes[..|st.flushes|] == st.flushes
    ensures |st.buffer| > 0 ==> r.flushes[|st.flushes|] == st.buffer
    ensures r.queue == st.queue && r.inFlight == st.inFlight && r.limit == st.limit
    ensures r.success == st.success && r.failed == st.failed
    ensures r.admissions == st.admissions && r.completed == st.completed
  {
    if |st.buffer| > 0 then
      FlattenAppend(st.flushes, st.buffer);
      st.(flushes := st.flushes + [st.buffer], buffer := [])
    else
      assert Flatten(st.flushes) + [] == Flatten(st.flushes);
      st
  }

  /** `processBatch`: admit up to the limit, then run the dispatcher until
      the batch is drained, and write what is left in the buffer. The
      schedule says what happens while it waits. */
  method ProcessBatch(batch: seq<int>, limit: int, schedule: seq<Event>, results: int -> ShowResult)
    returns (st: BatchState)
    requires Distinct(batch) && InRange(limit)
    ensures |st.queue| == 0 && |st.inFlight| == 0
    ensures Ids(st.admissions) == batch && AdmittedBelowLimit(st.admissions)
    ensures multiset(st.completed) == multiset(batch)
    ensures st.success + st.failed == |batch| && st.success == Successes(st.completed, results)
    ensures Flatten(st.flushes) == StagedAll(st.completed, results) && st.buffer == []
    ensures forall i :: 0 <= i < |st.flushes| - 1 ==> |st.flushes[i]| == BulkUpdateSize
    ensures |st.flushes| > 0 ==> 0 < |st.flushes[|st.flushes| - 1]| <= BulkUpdateSize
    ensures InRange(st.limit)
  {
    st := Start(batch, limit);
    assert Good(st, batch, results);
    FillGood(st, batch, results);
    st := Fill(st);
    st := RunSchedule(st, schedule, batch, results);
    Drained(st, batch, results);
    st := FlushRest(st);
  }

  /** Once nothing is queued or in flight, every show of the batch was
      admitted and completed exactly once. */
  lemma Drained(st: BatchState, batch: seq<int>, results: int -> ShowResult)
    requires Good(st, batch, results) && |st.queue| == 0 && |st.inFlight| == 0
    ensures Ids(st.admissions) == batch
    ensures multiset(st.completed) == multiset(batch)
    ensures st.success + st.failed == |batch|
  {
    assert Ids(st.admissions) + st.queue == Ids(st.admissions);
    assert multiset(st.inFlight) == multiset{};
    assert |multiset(st.completed)| == |st.completed| && |multiset(batch)| == |batch|;
  }

  /** `Math.ceil(n / 50)`. */
  function TotalBatches(n: nat): (r: nat)
    ensures (r - 1) * BatchSize < n <= r * BatchSize || (n == 0 && r == 0)
  {
    (n + BatchSize - 1) / BatchSize
  }

  /** The report of one batch. */
  datatype BatchReport = BatchReport(number: nat, shows: seq<int>, success: nat, failed: nat)

  function SumSuccess(rs: seq<BatchReport>): nat
  {
    if |rs| == 0 then 0 else SumSuccess(rs[..|rs| - 1]) + rs[|rs| - 1].success
  }

  function SumFailed(rs: seq<BatchReport>): nat
  {
    if |rs| == 0 then 0 else SumFailed(rs[..|rs| - 1]) + rs[|rs| - 1].failed
  }

  /** The reports so far cover the consecutive 50-show slices of `shows`,
      numbered from 1. */
  predicate Reported(shows: seq<int>, reports: seq<BatchReport>)
  {
    && (|reports| > 0 ==> (|reports| - 1) * BatchSize < |shows|)
    && forall k :: 0 <= k < |reports| ==>
         reports[k].number == k + 1 && reports[k].shows == shows[k * BatchSize..Min((k + 1) * BatchSize, |shows|)]
  }

  lemma ReportedStep(shows: seq<int>, reports: seq<BatchReport>, report: BatchReport)
    requires Reported(shows, reports) && |reports| * BatchSize < |shows|
    requires report.number == |reports| + 1
    requires report.shows == shows[|reports| * BatchSize..Min((|reports| + 1) * BatchSize, |shows|)]
    ensures Reported(shows, reports + [report])
    ensures SumSuccess(reports + [report]) == SumSuccess(reports) + report.success
    ensures SumFailed(reports + [report]) == SumFailed(reports) + report.failed
  {
    assert (reports + [report])[..|reports|] == reports;
  }

  lemma BatchNumber(k: nat)
    ensures (k * BatchSize) / BatchSize == k
  {
  }

  /** One iteration of the batch loop: process the batch and report its
      counts; the limit it ends with is carried to the next batch. */
  method ReportBatch(number: nat, batch: seq<int>, limit: int, schedule: seq<Event>, results: int -> ShowResult)
    returns (report: BatchReport, nextLimit: int)
    requires Distinct(batch) && InRange(limit)
    ensures report.number == number && report.shows == batch
    ensures report.success + report.failed == |batch|
    ensures InRange(nextLimit)
  {
    var st := ProcessBatch(batch, limit, schedule, results);
    report := BatchReport(number, batch, st.success, st.failed);
    nextLimit := st.limit;
  }

  /** `updateTVShowEpisodes`: the shows are processed in slices of 50, one
      batch after another, numbered from 1, the limit carried from batch to
      batch; the totals are the sums of the batches' counts. */
  method UpdateEpisodes(shows: seq<int>, schedules: nat -> seq<Event>, results: int -> ShowResult)
    returns (reports: seq<BatchReport>, totalSuccess: nat, totalFailed: nat, limit: int)
    requires Distinct(shows)
    ensures |reports| == TotalBatches(|shows|)
    ensures Reported(shows, reports)
    ensures totalSuccess == SumSuccess(reports) && totalFailed == SumFailed(reports)
    ensures totalSuccess + totalFailed == |shows|
    ensures InRange(limit)
  {
    reports := [];
    totalSuccess, totalFailed := 0, 0;
    limit := InitialLimit;
    var i := 0;
    while i < |shows|
      invariant i == |reports| * BatchSize
      invariant Reported(shows, reports)
      invariant totalSuccess == SumSuccess(reports) && totalFailed == SumFailed(reports)
      invariant totalSuccess + totalFailed == Min(i, |shows|)
      invariant InRange(limit)
    {
      var hi := Min(i + BatchSize, |shows|);
      var batch := shows[i..hi];
      BatchNumber(|reports|);
      var number := i / BatchSize + 1;
      DistinctSlice(shows, i, hi);
      var report;
      report, limit := ReportBatch(number, batch, limit, schedules(number - 1), results);
      ReportedStep(shows, reports, report);
      reports := reports + [report];
      totalSuccess := totalSuccess + report.success;
      totalFailed := totalFailed + report.failed;
      i := i + BatchSize;
    }
    BatchCount(|shows|, |reports|);
  }

  lemma BatchCount(n: nat, k: nat)
    requires n <= k * BatchSize && (k > 0 ==> (k - 1) * BatchSize < n)
    ensures k == TotalBatches(n)
  {
  }
}
