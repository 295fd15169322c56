/** The availability cache (src/api/mongodb.ts): a collection of content
    records keyed by catalog id, a 24-hour freshness rule in front of an
    availability probe, batch filtering, cleanup of week-old records and the
    popular-list refresh. */
module ContentCache {
  import opened Prelude
  import opened Decimal
  import opened Catalog

  /** One day and one week in milliseconds. */
  const DayMs: int := 24 * 60 * 60 * 1000
  const WeekMs: int := 7 * DayMs

  /** How many titles are checked together. */
  const CheckBatchSize: nat := 10

  /** A document of the `content` collection. `seasons` is written by the
      season backfill and left alone by the availability upsert. */
  datatype Record = Record(
    tmdbId: int,
    kind: ContentType,
    data: Content,
    available: bool,
    lastChecked: int,
    seasons: Option<seq<Season>>)

  /** The collection in its natural order: inserts append, updates stay in place. */
  type Store = seq<Record>

  /** At most one record per catalog id, whatever its type. */
  predicate Keyed(store: Store)
  {
    forall i, j :: 0 <= i < j < |store| ==> store[i].tmdbId != store[j].tmdbId
  }

  /** `findOne({tmdbId})`: the first record with that id. */
  function Find(store: Store, id: int): (r: Option<Record>)
    ensures r.Some? ==> r.value.tmdbId == id
  {
    if |store| == 0 then None
    else if store[0].tmdbId == id then Some(store[0])
    else Find(store[1..], id)
  }

  /** The lookup finds a stored record, and misses exactly when no record
      carries the id. */
  lemma {:induction false} FindSpec(store: Store, id: int)
    ensures Find(store, id).Some? ==> Find(store, id).value in store
    ensures Find(store, id).None? <==> forall rec :: rec in store ==> rec.tmdbId != id
  {
    if |store| > 0 && store[0].tmdbId != id {
      FindSpec(store[1..], id);
      assert store == [store[0]] + store[1..];
    }
  }

  /** In a keyed collection no record after the first carries its id. */
  lemma KeyedTail(store: Store)
    requires |store| > 0 && Keyed(store)
    ensures Keyed(store[1..]) && Find(store[1..], store[0].tmdbId).None?
  {
    forall rec | rec in store[1..] ensures rec.tmdbId != store[0].tmdbId {
      var k :| 0 <= k < |store[1..]| && store[1..][k] == rec;
      assert store[k + 1] == rec;
    }
    FindSpec(store[1..], store[0].tmdbId);
  }

  /** How many records carry `id`. */
  function CountId(store: Store, id: int): nat
  {
    if |store| == 0 then 0 else (if store[0].tmdbId == id then 1 else 0) + CountId(store[1..], id)
  }

  /** In a keyed collection an id is carried once if found, else never. */
  lemma {:induction false} KeyedCount(store: Store, id: int)
    requires Keyed(store)
    ensures CountId(store, id) == if Find(store, id).Some? then 1 else 0
  {
    if |store| > 0 {
      KeyedTail(store);
      KeyedCount(store[1..], id);
    }
  }

  /** The seasons a record for `id` already carries, kept by the upsert. */
  function PriorSeasons(store: Store, id: int): Option<seq<Season>>
  {
    if Find(store, id).Some? then Find(store, id).value.seasons else None
  }

  /** `updateOne({tmdbId}, {$set: {tmdbId, type, data, available,
      lastChecked}}, {upsert: true})`: the first record with that id gets the
      five fields, or a new record is appended. */
  function Upsert(store: Store, id: int, kind: ContentType, data: Content, available: bool, at: int): (r: Store)
    ensures Find(r, id) == Some(Record(id, kind, data, available, at, PriorSeasons(store, id)))
    ensures |r| == |store| + (if Find(store, id).Some? then 0 else 1)
  {
    if |store| == 0 then [Record(id, kind, data, available, at, None)]
    else if store[0].tmdbId == id then
      [store[0].(kind := kind, data := data, available := available, lastChecked := at)] + store[1..]
    else
      [store[0]] + Upsert(store[1..], id, kind, data, available, at)
  }

  /** The upsert leaves every other id as it was. */
  lemma {:induction false} UpsertOthers(store: Store, id: int, kind: ContentType, data: Content, available: bool, at: int, other: int)
    requires other != id
    ensures Find(Upsert(store, id, kind, data, available, at), other) == Find(store, other)
  {
    if |store| > 0 && store[0].tmdbId != id {
      UpsertOthers(store[1..], id, kind, data, available, at, other);
    }
  }

  /** The upsert keeps the collection keyed. */
  lemma {:induction false} UpsertKeyed(store: Store, id: int, kind: ContentType, data: Content, available: bool, at: int)
    requires Keyed(store)
    ensures Keyed(Upsert(store, id, kind, data, available, at))
  {
    if |store| > 0 {
      KeyedTail(store);
      var x := store[0].tmdbId;
      var r := Upsert(store, id, kind, data, available, at);
      if x == id {
        assert r[1..] == store[1..];
        forall rec | rec in r[1..] ensures rec.tmdbId != x {
          FindSpec(store[1..], x);
        }
      } else {
        var rest := Upsert(store[1..], id, kind, data, available, at);
        UpsertKeyed(store[1..], id, kind, data, available, at);
        UpsertOthers(store[1..], id, kind, data, available, at, x);
        FindSpec(rest, x);
        assert r == [store[0]] + rest;
      }
    }
  }

  /** The embed page probed for a title: it depends on type and id only. */
  function ProbeUrl(kind: ContentType, id: int): string
  {
    match kind
    case Movie => "https://vidsrc.to/embed/movie/" + IntToString(id)
    case TvShow => "https://vidsrc.to/embed/tv/" + IntToString(id) + "/1/1"
  }

  /** Different titles are probed at different URLs. */
  lemma ProbeUrlInjective(k1: ContentType, i1: int, k2: ContentType, i2: int)
    requires ProbeUrl(k1, i1) == ProbeUrl(k2, i2)
    ensures k1 == k2 && i1 == i2
  {
    var u1, u2 := ProbeUrl(k1, i1), ProbeUrl(k2, i2);
    var movieHead, tvHead := "https://vidsrc.to/embed/movie/", "https://vidsrc.to/embed/tv/";
    assert movieHead[24] == 'm' && tvHead[24] == 't';
    assert u1[24] == u2[24];
    var d1, d2 := IntToString(i1), IntToString(i2);
    if k1 == Movie {
      assert u1[|movieHead|..] == d1 && u2[|movieHead|..] == d2;
    } else {
      assert |d1| == |d2|;
      assert u1[|tvHead|..|tvHead| + |d1|] == d1 && u2[|tvHead|..|tvHead| + |d2|] == d2;
    }
    IntToStringInjective(i1, i2);
  }

  /** What the embed provider does with a probe. */
  datatype ProbeResponse = Responded(ok: bool) | ProbeThrew

  /** The outside world of one check: the probe, and whether the database
      lookup or the upsert throws for a given id. */
  datatype Env = Env(probe: string -> ProbeResponse, lookupThrows: int -> bool, writeThrows: int -> bool)

  /** The outcome of one check: the answer, the collection afterwards, and
      the URL probed, if any. */
  datatype Check = Check(available: bool, store: Store, probed: Option<string>)

  /** A record checked less than 24 hours before `now` (strictly). */
  predicate Fresh(rec: Record, now: int)
  {
    now - rec.lastChecked < DayMs
  }

  /** `checkAndCacheAvailability`. */
  function CheckAndCacheAvailability(store: Store, content: Content, kind: ContentType, now: int, env: Env): (r: Check)
    // A failed lookup answers false and touches nothing.
    ensures env.lookupThrows(content.id) ==> r == Check(false, store, None)
    // A fresh record answers from the cache: no probe, no write.
    ensures !env.lookupThrows(content.id) && Find(store, content.id).Some? && Fresh(Find(store, content.id).value, now)
      ==> r == Check(Find(store, content.id).value.available, store, None)
    // Otherwise the probe goes to a URL fixed by type and id ...
    ensures !env.lookupThrows(content.id) && !(Find(store, content.id).Some? && Fresh(Find(store, content.id).value, now))
      ==> r.probed == Some(ProbeUrl(kind, content.id))
    // ... a thrown probe or a thrown write answers false and writes nothing ...
    ensures r.probed.Some? && (env.probe(r.probed.value).ProbeThrew? || env.writeThrows(content.id))
      ==> !r.available && r.store == store
    // ... and otherwise the answer is the response's ok flag, recorded with
    // the time of the check, every other record untouched.
    ensures r.probed.Some? && env.probe(r.probed.value).Responded? && !env.writeThrows(content.id) ==>
      && r.available == env.probe(r.probed.value).ok
      && Find(r.store, content.id) == Some(Record(content.id, kind, content, r.available, now, PriorSeasons(store, content.id)))
  {
    var id := content.id;
    if env.lookupThrows(id) then Check(false, store, None)
    else
      var existing := Find(store, id);
      if existing.Some? && now - existing.value.lastChecked < DayMs then
        Check(existing.value.available, store, None)
      else
        var url := ProbeUrl(kind, id);
        match env.probe(url)
        case ProbeThrew => Check(false, store, Some(url))
        case Responded(ok) =>
          if env.writeThrows(id) then Check(false, store, Some(url))
          else Check(ok, Upsert(store, id, kind, content, ok, now), Some(url))
  }

  /** A check writes at most the record of the title checked. */
  lemma CheckLeavesOthers(store: Store, content: Content, kind: ContentType, now: int, env: Env, other: int)
    requires other != content.id
    ensures Find(CheckAndCacheAvailability(store, content, kind, now, env).store, other) == Find(store, other)
  {
    var r := CheckAndCacheAvailability(store, content, kind, now, env);
    if r.store != store {
      UpsertOthers(store, content.id, kind, content, r.available, now, other);
    }
  }

  /** A check keeps the collection keyed. */
  lemma CheckKeyed(store: Store, content: Content, kind: ContentType, now: int, env: Env)
    requires Keyed(store)
    ensures Keyed(CheckAndCacheAvailability(store, content, kind, now, env).store)
  {
    var r := CheckAndCacheAvailability(store, content, kind, now, env);
    if r.store != store {
      UpsertKeyed(store, content.id, kind, content, r.available, now);
    }
  }

  /** A record exactly 24 hours old is no longer fresh: it is probed again. */
  lemma DayOldIsProbed(store: Store, content: Content, kind: ContentType, now: int, env: Env)
    requires !env.lookupThrows(content.id)
    requires Find(store, content.id).Some? && Find(store, content.id).value.lastChecked == now - DayMs
    ensures CheckAndCacheAvailability(store, content, kind, now, env).probed == Some(ProbeUrl(kind, content.id))
  {
  }

  /** After a successful probe there is exactly one record for the id, even
      when a record of the other type held that id before. */
  lemma ProbedOnceRecorded(store: Store, content: Content, kind: ContentType, now: int, env: Env)
    requires Keyed(store)
    requires !env.lookupThrows(content.id) && !env.writeThrows(content.id)
    requires Find(store, content.id).None? || !Fresh(Find(store, content.id).value, now)
    requires env.probe(ProbeUrl(kind, content.id)).Responded?
    ensures var r := CheckAndCacheAvailability(store, content, kind, now, env);
      CountId(r.store, content.id) == 1 && Find(r.store, content.id).value.kind == kind
  {
    var r := CheckAndCacheAvailability(store, content, kind, now, env);
    CheckKeyed(store, content, kind, now, env);
    KeyedCount(r.store, content.id);
  }

  /** Two checks at the same time, the second started after the first has
      finished: when the first's lookup and write succeed and its probe gets
      a response, the second is answered from the record the first wrote,
      without a second probe. */
  lemma SecondCheckHitsCache(store: Store, content: Content, kind: ContentType, now: int, env: Env)
    requires !env.lookupThrows(content.id) && !env.writeThrows(content.id)
    requires env.probe(ProbeUrl(kind, content.id)).Responded?
    ensures var first := CheckAndCacheAvailability(store, content, kind, now, env);
      var second := CheckAndCacheAvailability(first.store, content, kind, now, env);
      second == Check(first.available, first.store, None)
  {
  }

  /** A check whose probe or write threw leaves nothing behind, so the next
      check of the same title probes again. */
  lemma FailedCheckProbesAgain(store: Store, content: Content, kind: ContentType, now: int, env: Env)
    requires !env.lookupThrows(content.id)
    requires !(Find(store, content.id).Some? && Fresh(Find(store, content.id).value, now))
    requires env.probe(ProbeUrl(kind, content.id)).ProbeThrew? || env.writeThrows(content.id)
    ensures var first := CheckAndCacheAvailability(store, content, kind, now, env);
      var second := CheckAndCacheAvailability(first.store, content, kind, now, env);
      && first.store == store
      && second.probed == Some(ProbeUrl(kind, content.id))
  {
  }

  /** One title to check and the type it is checked as. */
  datatype Job = Job(content: Content, kind: ContentType)

  /** The outcome of checking a list of titles one after another. */
  datatype Sweep = Sweep(results: seq<bool>, store: Store, probes: seq<string>)

  /** Checks the jobs in order, each against the collection the previous one
      left; one answer per job and at most one probe per job. */
  function CheckEach(store: Store, jobs: seq<Job>, now: int, env: Env): (r: Sweep)
    ensures |r.results| == |jobs| && |r.probes| <= |jobs|
  {
    if |jobs| == 0 then Sweep([], store, [])
    else
      var prev := CheckEach(store, jobs[..|jobs| - 1], now, env);
      var last := jobs[|jobs| - 1];
      var c := CheckAndCacheAvailability(prev.store, last.content, last.kind, now, env);
      Sweep(prev.results + [c.available], c.store,
            prev.probes + (if c.probed.Some? then [c.probed.value] else []))
  }

  lemma CheckEachStep(store: Store, jobs: seq<Job>, job: Job, now: int, env: Env)
    ensures var prev := CheckEach(store, jobs, now, env);
      var c := CheckAndCacheAvailability(prev.store, job.content, job.kind, now, env);
      CheckEach(store, jobs + [job], now, env)
        == Sweep(prev.results + [c.available], c.store,
                 prev.probes + (if c.probed.Some? then [c.probed.value] else []))
  {
    assert (jobs + [job])[..|jobs|] == jobs;
  }

  /** A sweep keeps the collection keyed. */
  lemma {:induction false} CheckEachKeyed(store: Store, jobs: seq<Job>, now: int, env: Env)
    requires Keyed(store)
    ensures Keyed(CheckEach(store, jobs, now, env).store)
  {
    if |jobs| > 0 {
      var prev := CheckEach(store, jobs[..|jobs| - 1], now, env);
      CheckEachKeyed(store, jobs[..|jobs| - 1], now, env);
      CheckKeyed(prev.store, jobs[|jobs| - 1].content, jobs[|jobs| - 1].kind, now, env);
    }
  }

  /** Every title checked as the same type. */
  function Jobs(items: seq<Content>, kind: ContentType): (r: seq<Job>)
    ensures |r| == |items| && forall i :: 0 <= i < |items| ==> r[i] == Job(items[i], kind)
  {
    seq(|items|, i requires 0 <= i < |items| => Job(items[i], kind))
  }

  lemma JobsAppend(a: seq<Content>, b: seq<Content>, kind: ContentType)
    ensures Jobs(a + b, kind) == Jobs(a, kind) + Jobs(b, kind)
  {
  }

  /** Checking `a` then `b` is checking `a + b`: the sweep over a list can
      be cut into batches anywhere. */
  lemma {:induction false} CheckEachAppend(store: Store, a: seq<Job>, b: seq<Job>, now: int, env: Env)
    ensures var first := CheckEach(store, a, now, env);
      var second := CheckEach(first.store, b, now, env);
      CheckEach(store, a + b, now, env)
        == Sweep(first.results + second.results, second.store, first.probes + second.probes)
    decreases |b|
  {
    var first := CheckEach(store, a, now, env);
    if |b| == 0 {
      assert a + b == a;
    } else {
      var b' := b[..|b| - 1];
      var last := b[|b| - 1];
      CheckEachAppend(store, a, b', now, env);
      assert a + b == (a + b') + [last];
      assert b == b' + [last];
      CheckEachStep(store, a + b', last, now, env);
      CheckEachStep(first.store, b', last, now, env);
      var mid := CheckEach(first.store, b', now, env);
      var c := CheckAndCacheAvailability(mid.store, last.content, last.kind, now, env);
      AppendAssoc(first.results, mid.results, [c.available]);
      AppendAssoc(first.probes, mid.probes, if c.probed.Some? then [c.probed.value] else []);
    }
  }

  /** Checks the jobs one after another. */
  method CheckRun(store: Store, jobs: seq<Job>, now: int, env: Env) returns (results: seq<bool>, store': Store)
    ensures results == CheckEach(store, jobs, now, env).results
    ensures store' == CheckEach(store, jobs, now, env).store
  {
    results := [];
    store' := store;
    var j := 0;
    while j < |jobs|
      invariant 0 <= j <= |jobs|
      invariant results == CheckEach(store, jobs[..j], now, env).results
      invariant store' == CheckEach(store, jobs[..j], now, env).store
    {
      var c := CheckAndCacheAvailability(store', jobs[j].content, jobs[j].kind, now, env);
      CheckEachStep(store, jobs[..j], jobs[j], now, env);
      assert jobs[..j + 1] == jobs[..j] + [jobs[j]];
      results := results + [c.available];
      store' := c.store;
      j := j + 1;
    }
    assert jobs[..|jobs|] == jobs;
  }

  /** `filterAvailableContent`: checks the titles ten at a time and keeps,
      in their original order, those whose check answered true. The result
      is that of checking every title once, in order. */
  method FilterAvailableContent(store: Store, items: seq<Content>, kind: ContentType, now: int, env: Env)
    returns (kept: seq<Content>, store': Store)
    ensures var sweep := CheckEach(store, Jobs(items, kind), now, env);
      kept == Select(items, sweep.results) && store' == sweep.store
  {
    kept := [];
    store' := store;
    ghost var sweep := Sweep([], store, []);
    var i := 0;
    while i < |items|
      invariant 0 <= i <= |items|
      invariant sweep == CheckEach(store, Jobs(items[..i], kind), now, env)
      invariant store' == sweep.store && kept == Select(items[..i], sweep.results)
      decreases |items| - i
    {
      var hi := Min(i + CheckBatchSize, |items|);
      var batch := items[i..hi];
      var batchResults, next := CheckRun(store', Jobs(batch, kind), now, env);
      FilterBatchStep(store, items, i, hi, kind, now, env);
      ghost var batchSweep := CheckEach(store', Jobs(batch, kind), now, env);
      kept := kept + Select(batch, batchResults);
      sweep := Sweep(sweep.results + batchResults, next, sweep.probes + batchSweep.probes);
      store' := next;
      i := hi;
    }
    assert items[..|items|] == items;
  }

  /** One batch of `FilterAvailableContent`: the sweep and the kept list
      grow by those of the batch. */
  lemma FilterBatchStep(store: Store, items: seq<Content>, i: nat, hi: nat, kind: ContentType, now: int, env: Env)
    requires i <= hi <= |items|
    ensures var before := CheckEach(store, Jobs(items[..i], kind), now, env);
      var batch := CheckEach(before.store, Jobs(items[i..hi], kind), now, env);
      && CheckEach(store, Jobs(items[..hi], kind), now, env)
           == Sweep(before.results + batch.results, batch.store, before.probes + batch.probes)
      && Select(items[..hi], before.results + batch.results)
           == Select(items[..i], before.results) + Select(items[i..hi], batch.results)
  {
    var a, b := items[..i], items[i..hi];
    assert items[..hi] == a + b;
    JobsAppend(a, b, kind);
    CheckEachAppend(store, Jobs(a, kind), Jobs(b, kind), now, env);
    var before := CheckEach(store, Jobs(a, kind), now, env);
    var batch := CheckEach(before.store, Jobs(b, kind), now, env);
    SelectConcat(a, before.results, b, batch.results);
  }

  /** `cleanupOldContent`: deletes every record last checked more than a
      week before `now`, keeping the others in order. */
  function CleanupOldContent(store: Store, now: int): (r: Store)
    ensures forall rec :: rec in r <==> rec in store && rec.lastChecked >= now - WeekMs
    ensures |r| <= |store|
  {
    if |store| == 0 then []
    else
      var rest := CleanupOldContent(store[1..], now);
      if store[0].lastChecked < now - WeekMs then rest else [store[0]] + rest
  }

  /** The freshness flags cleanup tests, one per record. */
  function FreshFlags(store: Store, now: int): (keep: seq<bool>)
    ensures |keep| == |store|
    ensures forall i :: 0 <= i < |store| ==> (keep[i] <==> store[i].lastChecked >= now - WeekMs)
  {
    seq(|store|, i requires 0 <= i < |store| => store[i].lastChecked >= now - WeekMs)
  }

  /** Cleanup is the subsequence of the fresh records: survivors keep
      their relative order and nothing else is kept. */
  lemma {:induction false} CleanupKeepsOrder(store: Store, now: int)
    ensures CleanupOldContent(store, now) == Select(store, FreshFlags(store, now))
    decreases |store|
  {
    if |store| > 0 {
      var keep := FreshFlags(store, now);
      CleanupKeepsOrder(store[1..], now);
      assert FreshFlags(store[1..], now) == keep[1..];
      CleanupStep(store, now);
      SelectCons(store[0], keep[0], store[1..], keep[1..]);
      HeadTail(store);
      HeadTail(keep);
    }
  }

  /** One step of cleanup: the first record, if fresh, then the cleaned rest. */
  lemma CleanupStep(store: Store, now: int)
    requires |store| > 0
    ensures CleanupOldContent(store, now)
      == (if store[0].lastChecked >= now - WeekMs then [store[0]] else []) + CleanupOldContent(store[1..], now)
  {
  }

  /** Cleanup keeps the collection keyed. */
  lemma {:induction false} CleanupKeyed(store: Store, now: int)
    requires Keyed(store)
    ensures Keyed(CleanupOldContent(store, now))
  {
    if |store| > 0 {
      KeyedTail(store);
      CleanupKeyed(store[1..], now);
      FindSpec(store[1..], store[0].tmdbId);
    }
  }

  /** Seen by id: a record survives exactly when it is at most a week old,
      and survives unchanged. */
  lemma {:induction false} CleanupFind(store: Store, now: int, id: int)
    requires Keyed(store)
    ensures Find(CleanupOldContent(store, now), id)
      == if Find(store, id).Some? && Find(store, id).value.lastChecked >= now - WeekMs then Find(store, id) else None
  {
    if |store| > 0 {
      KeyedTail(store);
      CleanupFind(store[1..], now, id);
    }
  }

  /** The boundary: a record exactly a week old stays, one a millisecond
      older goes. */
  lemma CleanupBoundary(rec: Record, now: int)
    ensures rec.lastChecked == now - WeekMs ==> CleanupOldContent([rec], now) == [rec]
    ensures rec.lastChecked == now - WeekMs - 1 ==> CleanupOldContent([rec], now) == []
  {
  }

  /** Cleaning twice at the same time removes nothing more. */
  lemma {:induction false} CleanupIdempotent(store: Store, now: int)
    ensures CleanupOldContent(CleanupOldContent(store, now), now) == CleanupOldContent(store, now)
  {
    if |store| > 0 {
      CleanupIdempotent(store[1..], now);
    }
  }

  /** The type `updatePopularContent` checks item `j` of the joined list as:
      the type of the first item of its batch of ten. */
  function BatchLabel(j: nat, movieCount: nat): ContentType
  {
    if (j / CheckBatchSize) * CheckBatchSize < movieCount then Movie else TvShow
  }

  /** The type an item of the joined list really has. */
  function ItemLabel(j: nat, movieCount: nat): ContentType
  {
    if j < movieCount then Movie else TvShow
  }

  /** Pairs every item of `movies ++ shows` with a type. */
  function LabelJobs(all: seq<Content>, movieCount: nat, byBatch: bool): (r: seq<Job>)
    ensures |r| == |all|
    ensures forall j :: 0 <= j < |all| ==>
      r[j] == Job(all[j], if byBatch then BatchLabel(j, movieCount) else ItemLabel(j, movieCount))
  {
    seq(|all|, j requires 0 <= j < |all| =>
      Job(all[j], if byBatch then BatchLabel(j, movieCount) else ItemLabel(j, movieCount)))
  }

  /** `updatePopularContent` as written: the popular movies and shows
      (`None` when fetching them failed) are checked in batches of ten, each
      batch typed by its first index. */
  method UpdatePopularContent(store: Store, lists: Option<(seq<Content>, seq<Content>)>, now: int, env: Env)
    returns (store': Store, jobs: seq<Job>)
    ensures lists.None? ==> store' == store && jobs == []
    ensures lists.Some? ==>
      && jobs == LabelJobs(lists.value.0 + lists.value.1, |lists.value.0|, true)
      && store' == CheckEach(store, jobs, now, env).store
  {
    if lists.None? {
      return store, [];
    }
    var (movies, shows) := lists.value;
    var all := movies + shows;
    ghost var target := LabelJobs(all, |movies|, true);
    store' := store;
    jobs := [];
    var i := 0;
    while i < |all|
      invariant 0 <= i <= |all|
      invariant i % CheckBatchSize == 0 || i == |all|
      invariant jobs == target[..i]
      invariant store' == CheckEach(store, jobs, now, env).store
    {
      var hi := Min(i + CheckBatchSize, |all|);
      var kind := if i < |movies| then Movie else TvShow;
      var batchJobs := Jobs(all[i..hi], kind);
      BatchLabels(all, |movies|, i, hi);
      NextBatchStart(i, hi, |all|);
      var _, next := CheckRun(store', batchJobs, now, env);
      CheckEachAppend(store, jobs, batchJobs, now, env);
      PrefixExtend(target, i, hi);
      jobs := jobs + batchJobs;
      store' := next;
      i := hi;
    }
    assert target[..|all|] == target;
  }

  lemma NextBatchStart(i: nat, hi: nat, n: nat)
    requires i % CheckBatchSize == 0 && hi == Min(i + CheckBatchSize, n)
    ensures hi % CheckBatchSize == 0 || hi == n
  {
  }

  /** Inside one batch every item gets the label of the batch's first index. */
  lemma BatchLabels(all: seq<Content>, movieCount: nat, i: nat, hi: nat)
    requires i % CheckBatchSize == 0 && i <= hi <= i + CheckBatchSize && hi <= |all|
    ensures LabelJobs(all, movieCount, true)[i..hi]
      == Jobs(all[i..hi], if i < movieCount then Movie else TvShow)
  {
    forall j | i <= j < hi
      ensures BatchLabel(j, movieCount) == (if i < movieCount then Movie else TvShow)
    {
      assert j / CheckBatchSize == i / CheckBatchSize;
    }
  }

  /** With a movie list whose length is not a multiple of ten, the batch that
      straddles the boundary checks its shows as movies: with 15 movies, the
      first show (index 15) is probed at the movie URL and stored as a movie. */
  lemma StraddlingBatchMislabelsShows()
    ensures BatchLabel(15, 15) == Movie && ItemLabel(15, 15) == TvShow
    ensures forall j :: 15 <= j < 20 ==> BatchLabel(j, 15) == Movie
  {
  }

  /** Typing by batch agrees with typing by item exactly when no batch holds
      both movies and shows: the movie count is a multiple of ten, or there
      are no shows. */
  lemma BatchLabelsAgreeOnBoundary(movieCount: nat, total: nat)
    ensures (forall j :: 0 <= j < total ==> BatchLabel(j, movieCount) == ItemLabel(j, movieCount))
      <==> movieCount % CheckBatchSize == 0 || total <= movieCount
  {
    if movieCount % CheckBatchSize == 0 || total <= movieCount {
      forall j | 0 <= j < total
        ensures BatchLabel(j, movieCount) == ItemLabel(j, movieCount)
      {
        var b := (j / CheckBatchSize) * CheckBatchSize;
        assert b <= j < b + CheckBatchSize;
      }
    } else {
      assert BatchLabel(movieCount, movieCount) != ItemLabel(movieCount, movieCount);
    }
  }

  /** Typed by item, the joined list checks every movie as a movie and
      every show as a show. */
  lemma {:induction false} ItemLabelsFollowLists(movies: seq<Content>, shows: seq<Content>)
    ensures var jobs := LabelJobs(movies + shows, |movies|, false);
      && (forall j :: 0 <= j < |movies| ==> jobs[j] == Job(movies[j], Movie))
      && (forall j :: 0 <= j < |shows| ==> jobs[|movies| + j] == Job(shows[j], TvShow))
    ensures LabelJobs(movies + shows, |movies|, false) == Jobs(movies, Movie) + Jobs(shows, TvShow)
  {
    var jobs := LabelJobs(movies + shows, |movies|, false);
    var split := Jobs(movies, Movie) + Jobs(shows, TvShow);
    forall j | 0 <= j < |jobs|
      ensures jobs[j] == split[j]
    {
      if j < |movies| {
        assert split[j] == Jobs(movies, Movie)[j];
      } else {
        assert split[j] == Jobs(shows, TvShow)[j - |movies|];
      }
    }
  }

  /** The popular refresh with each item checked as its own type: every
      movie is checked as a movie and every show as a show, still in batches
      of ten. */
  method UpdatePopularByItem(store: Store, lists: Option<(seq<Content>, seq<Content>)>, now: int, env: Env)
    returns (store': Store, jobs: seq<Job>)
    ensures lists.None? ==> store' == store && jobs == []
    ensures lists.Some? ==>
      && jobs == Jobs(lists.value.0, Movie) + Jobs(lists.value.1, TvShow)
      && store' == CheckEach(store, jobs, now, env).store
  {
    if lists.None? {
      return store, [];
    }
    var (movies, shows) := lists.value;
    var all := movies + shows;
    ghost var target := LabelJobs(all, |movies|, false);
    store' := store;
    jobs := [];
    var i := 0;
    while i < |all|
      invariant 0 <= i <= |all|
      invariant jobs == target[..i]
      invariant store' == CheckEach(store, jobs, now, env).store
    {
      var hi := Min(i + CheckBatchSize, |all|);
      var batchJobs := LabelJobs(all, |movies|, false)[i..hi];
      var _, next := CheckRun(store', batchJobs, now, env);
      CheckEachAppend(store, jobs, batchJobs, now, env);
      PrefixExtend(target, i, hi);
      jobs := jobs + batchJobs;
      store' := next;
      i := hi;
    }
    assert target[..|all|] == target;
    ItemLabelsFollowLists(movies, shows);
    assert jobs == Jobs(movies, Movie) + Jobs(shows, TvShow);
  }
}
