/** The sync worker on its own: no competing worker, no failing call and no new links while it
    runs (src/store/link-sync-worker.ts). What holds under interference is in WriteBehind. */
module LinkSyncWorker {
  import opened LinkTable
  import opened PendingLinks
  import opened SyncQueue
  import opened Wrappers
  import LinkSafety
  import WriteBehind

  datatype SyncResult = SyncResult(synced: nat, conflicts: nat, poison: nat) {
    predicate NoProgress() {
      synced == 0 && conflicts == 0 && poison == 0
    }

    function Plus(other: SyncResult): (sum: SyncResult)
      ensures sum.NoProgress() <==> NoProgress() && other.NoProgress()
    {
      SyncResult(synced + other.synced, conflicts + other.conflicts, poison + other.poison)
    }
  }

  const EmptyResult := SyncResult(0, 0, 0)

  /** What a drain has counted so far: nothing exactly when it has not started or found nothing. */
  predicate Told(total: SyncResult, ticks: nat, nothing: bool) {
    total.NoProgress() <==> ticks == 0 || nothing
  }

  /** Shard `k` lost its first `n` records, or all it had, and is not locked. */
  predicate DrainedBy(before: seq<Shard>, after: seq<Shard>, k: nat, n: nat) {
    && k < |before| == |after|
    && after[k].queue == Drop(before[k].queue, n)
    && after[k].lock == None
  }

  predicate AllDrainedBy(before: seq<Shard>, after: seq<Shard>, ks: set<nat>, n: nat) {
    forall k :: k in ks ==> DrainedBy(before, after, k, n)
  }

  predicate SameOutside(before: seq<Shard>, after: seq<Shard>, ks: set<nat>) {
    |before| == |after| && forall k :: 0 <= k < |before| && k !in ks ==> after[k] == before[k]
  }

  predicate NothingQueued(shards: seq<Shard>, ks: set<nat>) {
    forall k :: k in ks && k < |shards| ==> shards[k].queue == []
  }

  /** One more shard drained, the ones before it left alone. */
  lemma DrainedOneMore(before: seq<Shard>, middle: seq<Shard>, after: seq<Shard>, ks: set<nat>, k: nat, n: nat)
    requires AllDrainedBy(before, middle, ks, n) && SameOutside(before, middle, ks) && k !in ks
    requires DrainedBy(middle, after, k, n) && SameOutside(middle, after, {k})
    ensures AllDrainedBy(before, after, ks + {k}, n) && SameOutside(before, after, ks + {k})
    ensures NothingQueued(before, ks + {k}) <==> NothingQueued(before, ks) && middle[k].queue == []
  {
    forall j | j in ks + {k}
      ensures DrainedBy(before, after, j, n)
    {
      if j in ks {
        assert DrainedBy(before, middle, j, n);
      }
    }
    assert k in ks + {k};
  }

  function Listed(ks: seq<nat>): set<nat> {
    set k | k in ks
  }

  lemma ListedSnoc(ks: seq<nat>, i: nat)
    requires i < |ks|
    requires forall i, j :: 0 <= i < j < |ks| ==> ks[i] != ks[j]
    ensures Listed(ks[..i + 1]) == Listed(ks[..i]) + {ks[i]}
    ensures ks[i] !in Listed(ks[..i])
  {
    assert ks[..i + 1] == ks[..i] + [ks[i]];
  }

  predicate AtMostQueued(shards: seq<Shard>, ks: set<nat>, n: nat) {
    forall k :: k in ks && k < |shards| ==> |shards[k].queue| <= n
  }

  /** n times k, as repeated addition. */
  function Times(n: nat, k: nat): nat {
    if n == 0 then 0 else Times(n - 1, k) + k
  }

  lemma {:induction false} TimesGrows(m: nat, n: nat, k: nat)
    requires m <= n
    ensures Times(m, k) <= Times(n, k)
    ensures k >= 1 ==> Times(n, k) >= n
    decreases n
  {
    if m < n {
      TimesGrows(m, n - 1, k);
    } else if n > 0 {
      TimesGrows(n - 1, n - 1, k);
    }
  }

  /** Two drains in a row add up. */
  lemma DrainedTwice(before: seq<Shard>, middle: seq<Shard>, after: seq<Shard>, ks: set<nat>, m: nat, n: nat)
    requires AllDrainedBy(before, middle, ks, m) && AllDrainedBy(middle, after, ks, n)
    ensures AllDrainedBy(before, after, ks, m + n)
    ensures NothingQueued(before, ks) ==> NothingQueued(middle, ks)
  {
    forall k | k in ks
      ensures DrainedBy(before, after, k, m + n)
      ensures before[k].queue == [] ==> middle[k].queue == []
    {
      assert DrainedBy(before, middle, k, m) && DrainedBy(middle, after, k, n);
      DropTwice(before[k].queue, m, n);
    }
  }

  lemma DrainedEmpty(before: seq<Shard>, after: seq<Shard>, ks: set<nat>, n: nat)
    requires AllDrainedBy(before, after, ks, n)
    ensures NothingQueued(before, ks) ==> NothingQueued(after, ks)
    ensures AtMostQueued(before, ks, n) ==> NothingQueued(after, ks)
    // once everything is gone, more ticks change nothing
    ensures NothingQueued(after, ks) ==> forall more :: more >= n ==> AllDrainedBy(before, after, ks, more)
  {
    forall k | k in ks
      ensures |before[k].queue| <= n ==> after[k].queue == []
      ensures before[k].queue == [] ==> after[k].queue == []
    {
      assert DrainedBy(before, after, k, n);
    }
  }

  lemma DropTwice<T>(s: seq<T>, m: nat, n: nat)
    ensures Drop(Drop(s, m), n) == Drop(s, m + n)
  {
  }

  lemma {:induction false} SomethingCounted(raw: seq<PendingLink>)
    requires raw != []
    ensures |WriteBehind.InvalidLetters(raw)| + |WriteBehind.ReadableOnes(raw)| == |raw|
    decreases |raw|
  {
    if |raw| > 1 {
      SomethingCounted(raw[..|raw| - 1]);
    } else {
      assert WriteBehind.InvalidLetters(raw[..0]) == [] && WriteBehind.ReadableOnes(raw[..0]) == [];
    }
  }

  /** A batch that is not empty is reported: at least one record persisted, in conflict, or bad. */
  lemma BatchMakesProgress(t: Table, u: Table, raw: seq<PendingLink>, verdict: BatchResult)
    requires raw != []
    requires var batch := WriteBehind.Batch(raw);
             Grown(InsertAbsent(t, batch), u) && verdict == Classify(NewCodes(t, batch), u, batch)
    ensures |verdict.persisted| + |verdict.conflicts| + |WriteBehind.InvalidLetters(raw)| > 0
  {
    SomethingCounted(raw);
    if WriteBehind.ReadableOnes(raw) != [] {
      ReadableAreSettled(t, u, WriteBehind.ReadableOnes(raw), verdict);
    }
  }

  lemma ReadableAreSettled(t: Table, u: Table, valid: seq<PendingLink>, verdict: BatchResult)
    requires valid != [] && Grown(InsertAbsent(t, FirstOfEach(valid)), u)
    requires verdict == Classify(NewCodes(t, FirstOfEach(valid)), u, FirstOfEach(valid))
    ensures |verdict.persisted| + |verdict.conflicts| > 0
  {
    ClassifyPartitions(t, u, valid);
    assert valid[0].code in Codes(valid);
    if verdict.persisted == {} {
      assert verdict.conflicts != [];
    }
  }

  // ---- where the records went ----

  function Letters(letters: seq<DeadLetter>): set<DeadLetter> {
    set x | x in letters
  }

  /** The table holds the record, or its dead letter was sent to Redis. */
  predicate Placed(l: PendingLink, rows: Table, reported: set<DeadLetter>) {
    (Readable(l) && IsReplay(rows, l)) || DeadLetter(if Readable(l) then Conflict else Invalid, l) in reported
  }

  /** With unique codes, the first `n` records of the queue have all been placed. */
  predicate PlacedFirst(queue: seq<PendingLink>, n: nat, rows: Table, reported: set<DeadLetter>) {
    DistinctCodes(queue) ==> forall l :: l in FirstOf(queue, n) ==> Placed(l, rows, reported)
  }

  predicate AllPlacedFirst(shards: seq<Shard>, ks: set<nat>, n: nat, rows: Table, reported: set<DeadLetter>) {
    forall k :: k in ks && k < |shards| ==> PlacedFirst(shards[k].queue, n, rows, reported)
  }

  lemma PlacedStays(queue: seq<PendingLink>, n: nat, rows: Table, reported: set<DeadLetter>,
                    rows': Table, reported': set<DeadLetter>)
    requires PlacedFirst(queue, n, rows, reported) && Grown(rows, rows') && reported <= reported'
    ensures PlacedFirst(queue, n, rows', reported')
  {
  }

  lemma PlacedMore(queue: seq<PendingLink>, m: nat, n: nat, rows: Table, reported: set<DeadLetter>)
    requires PlacedFirst(queue, m, rows, reported) && PlacedFirst(Drop(queue, m), n, rows, reported)
    ensures PlacedFirst(queue, m + n, rows, reported)
  {
    assert FirstOf(queue, m + n) == FirstOf(queue, m) + FirstOf(Drop(queue, m), n);
  }

  /** A batch of different codes is placed by its own verdict. */
  lemma BatchPlaced(t: Table, u: Table, queue: seq<PendingLink>, n: nat, verdict: BatchResult)
    requires var raw := FirstOf(queue, n); var batch := WriteBehind.Batch(raw);
             u == InsertAbsent(t, batch) && verdict == Classify(NewCodes(t, batch), u, batch)
    ensures var raw := FirstOf(queue, n);
            var letters := WriteBehind.InvalidLetters(raw) + WriteBehind.ConflictLetters(verdict.conflicts);
            PlacedFirst(queue, n, u, Letters(letters))
  {
    if DistinctCodes(queue) {
      var raw := FirstOf(queue, n);
      var batch := WriteBehind.Batch(raw);
      LinkSafety.ReadableDistinct(raw);
      DistinctNothingDropped(WriteBehind.ReadableOnes(raw));
      forall l | l in raw
        ensures Placed(l, u, Letters(WriteBehind.InvalidLetters(raw) + WriteBehind.ConflictLetters(verdict.conflicts)))
      {
        if Readable(l) {
          ClassifyMeans(t, u, batch, l);
        }
      }
    }
  }

  /** One more batch of a shard. */
  lemma PlacedNext(queue: seq<PendingLink>, batches: nat, size: nat, rows: Table, reported: set<DeadLetter>,
                   rows': Table, reported': set<DeadLetter>)
    requires PlacedFirst(queue, Times(batches, size), rows, reported) && Grown(rows, rows') && reported <= reported'
    requires PlacedFirst(Drop(queue, Times(batches, size)), size, rows', reported')
    ensures PlacedFirst(queue, Times(batches, size), rows', reported')
    ensures PlacedFirst(queue, Times(batches + 1, size), rows', reported')
    ensures Drop(Drop(queue, Times(batches, size)), size) == Drop(queue, Times(batches + 1, size))
  {
    PlacedStays(queue, Times(batches, size), rows, reported, rows', reported');
    PlacedMore(queue, Times(batches, size), size, rows', reported');
    DropTwice(queue, Times(batches, size), size);
  }

  lemma PlacedNothing(queue: seq<PendingLink>, n: nat, rows: Table, reported: set<DeadLetter>)
    requires n == 0 || queue == []
    ensures PlacedFirst(queue, n, rows, reported)
  {
  }

  lemma PlacedQueue(queue: seq<PendingLink>, n: nat, more: nat, rows: Table, reported: set<DeadLetter>)
    requires PlacedFirst(queue, n, rows, reported) && (n == more || (n <= more && Drop(queue, n) == []))
    ensures PlacedFirst(queue, more, rows, reported)
  {
    assert n < more ==> FirstOf(queue, more) == FirstOf(queue, n);
  }

  lemma PlacedOneShard(before: seq<Shard>, ks: set<nat>, k: nat, n: nat, rows: Table, reported: set<DeadLetter>,
                       rows': Table, reported': set<DeadLetter>)
    requires AllPlacedFirst(before, ks, n, rows, reported) && Grown(rows, rows') && reported <= reported'
    requires k < |before| && PlacedFirst(before[k].queue, n, rows', reported')
    ensures AllPlacedFirst(before, ks + {k}, n, rows', reported')
  {
    forall j | j in ks + {k} && j < |before|
      ensures PlacedFirst(before[j].queue, n, rows', reported')
    {
      if j != k {
        PlacedStays(before[j].queue, n, rows, reported, rows', reported');
      }
    }
  }

  /** Every listed shard lost its first `n` records, which have all been placed. */
  predicate Went(before: seq<Shard>, after: seq<Shard>, ks: set<nat>, n: nat, rows: Table, reported: set<DeadLetter>) {
    && AllDrainedBy(before, after, ks, n) && SameOutside(before, after, ks)
    && AllPlacedFirst(before, ks, n, rows, reported)
  }

  lemma WentNothing(before: seq<Shard>, ks: set<nat>, per: nat, rows: Table, reported: set<DeadLetter>)
    requires forall k :: k in ks ==> k < |before| && before[k].lock == None
    ensures Went(before, before, ks, Times(0, per), rows, reported)
  {
  }

  lemma WentOn(before: seq<Shard>, middle: seq<Shard>, after: seq<Shard>, ks: set<nat>, tick: nat, per: nat,
               rows: Table, reported: set<DeadLetter>, rows': Table, reported': set<DeadLetter>)
    requires Went(before, middle, ks, Times(tick, per), rows, reported)
    requires Went(middle, after, ks, per, rows', reported')
    requires Grown(rows, rows') && reported <= reported'
    ensures Went(before, after, ks, Times(tick + 1, per), rows', reported')
    ensures NothingQueued(before, ks) ==> NothingQueued(middle, ks)
    ensures NothingQueued(middle, ks) ==> NothingQueued(after, ks)
  {
    var m := Times(tick, per);
    DrainedTwice(before, middle, after, ks, m, per);
    DrainedEmpty(middle, after, ks, per);
    forall k | k in ks && k < |before|
      ensures PlacedFirst(before[k].queue, m + per, rows', reported')
    {
      assert DrainedBy(before, middle, k, m);
      PlacedStays(before[k].queue, m, rows, reported, rows', reported');
      PlacedMore(before[k].queue, m, per, rows', reported');
    }
  }

  /** Once the queues are empty, more ticks change nothing. */
  lemma WentAll(before: seq<Shard>, after: seq<Shard>, ks: set<nat>, tick: nat, maxTicks: nat, per: nat,
                rows: Table, reported: set<DeadLetter>)
    requires Went(before, after, ks, Times(tick, per), rows, reported) && tick <= maxTicks && per >= 1
    requires tick == maxTicks || NothingQueued(after, ks)
    ensures Went(before, after, ks, Times(maxTicks, per), rows, reported)
    ensures AtMostQueued(before, ks, maxTicks) ==> NothingQueued(after, ks)
  {
    var n, more := Times(tick, per), Times(maxTicks, per);
    TimesGrows(tick, maxTicks, per);
    DrainedEmpty(before, after, ks, n);
    forall k | k in ks && k < |before|
      ensures PlacedFirst(before[k].queue, more, rows, reported)
    {
      assert DrainedBy(before, after, k, n);
      PlacedQueue(before[k].queue, n, more, rows, reported);
    }
  }

  method Spread(codes: set<string>) returns (listed: seq<string>)
    ensures SetOf(listed) == codes
  {
    var left := codes;
    listed := [];
    while left != {}
      invariant left <= codes && SetOf(listed) == codes - left
    {
      var c :| c in left;
      assert (listed + [c])[..|listed|] == listed && (listed + [c])[..|listed| + 1] == listed + [c];
      SetOfSnoc(listed + [c], |listed|);
      listed := listed + [c];
      left := left - {c};
    }
  }

  class Worker {
    const redis: RedisServer
    const sink: PostgresLinkStore
    const owned: seq<nat>
    const batchSize: nat
    const maxBatchesPerShard: nat
    const cacheTtlMs: nat
    ghost var reported: set<DeadLetter>    // all dead letters sent so far

    constructor (redis: RedisServer, sink: PostgresLinkStore, owned: seq<nat>, batchSize: nat,
                 maxBatchesPerShard: nat, cacheTtlMs: nat)
      requires batchSize >= 1
      ensures this.redis == redis && this.sink == sink && this.owned == owned
      ensures this.batchSize == batchSize && this.maxBatchesPerShard == maxBatchesPerShard
      ensures this.cacheTtlMs == cacheTtlMs && reported == {}
    {
      reported := {};
      this.redis, this.sink, this.owned := redis, sink, owned;
      this.batchSize, this.maxBatchesPerShard, this.cacheTtlMs := batchSize, maxBatchesPerShard, cacheTtlMs;
    }

    /** How many records one tick takes from a shard at most. */
    function PerTick(): nat {
      Times(maxBatchesPerShard, batchSize)
    }

    ghost function Owned(): set<nat> {
      Listed(owned)
    }

    /** Every owned shard exists, is listed once, and is not locked by anyone. */
    ghost predicate Alone()
      reads redis, sink.db
    {
      && batchSize >= 1 && sink.db.Valid()
      && (forall k :: k in Owned() ==> k < |redis.shards| && redis.shards[k].lock == None)
      && (forall i, j :: 0 <= i < j < |owned| ==> owned[i] != owned[j])
    }

    method Sort(raw: seq<PendingLink>) returns (valid: seq<PendingLink>, letters: seq<DeadLetter>)
      ensures valid == WriteBehind.ReadableOnes(raw) && letters == WriteBehind.InvalidLetters(raw)
    {
      valid, letters := [], [];
      for i := 0 to |raw|
        invariant valid == WriteBehind.ReadableOnes(raw[..i]) && letters == WriteBehind.InvalidLetters(raw[..i])
      {
        assert raw[..i + 1][..i] == raw[..i];
        if Readable(raw[i]) {
          valid := valid + [raw[i]];
        } else {
          letters := letters + [DeadLetter(Invalid, raw[i])];
        }
      }
      assert raw[..|raw|] == raw;
    }

    method ReportConflicts(letters: seq<DeadLetter>, conflicts: seq<PendingLink>) returns (all: seq<DeadLetter>)
      ensures all == letters + WriteBehind.ConflictLetters(conflicts)
    {
      all := letters;
      for i := 0 to |conflicts|
        invariant all == letters + WriteBehind.ConflictLetters(conflicts[..i])
      {
        assert conflicts[..i + 1][..i] == conflicts[..i];
        all := all + [DeadLetter(Conflict, conflicts[i])];
      }
      assert conflicts[..|conflicts|] == conflicts;
    }

    method Store(valid: seq<PendingLink>) returns (persisted: set<string>, conflicts: seq<PendingLink>)
      requires sink.db.Valid()
      modifies sink.db
      ensures sink.db.Valid() && sink.db.rows == InsertAbsent(old(sink.db.rows), FirstOfEach(valid))
      ensures BatchResult(persisted, conflicts)
           == Classify(NewCodes(old(sink.db.rows), FirstOfEach(valid)), sink.db.rows, FirstOfEach(valid))
    {
      persisted, conflicts := sink.InsertPendingBatch(valid);
    }

    /** One batch under the lock, from peek to completion: the shard and the hashes end up as the
        completion of that very batch says. */
    method SyncBatch(k: nat, token: nat, raw: seq<PendingLink>, now: int) returns (result: SyncResult)
      requires k < |redis.shards| && OwnedBy(redis.shards[k], token) && sink.db.Valid()
      requires raw != [] && raw == FirstOf(redis.shards[k].queue, batchSize)
      modifies redis, sink.db, `reported
      ensures sink.db.Valid()
      ensures var batch := WriteBehind.Batch(raw);
              var verdict := Classify(NewCodes(old(sink.db.rows), batch), sink.db.rows, batch);
              var done := WriteBehind.CompletionOf(raw, verdict, cacheTtlMs);
              && sink.db.rows == InsertAbsent(old(sink.db.rows), batch)
              && redis.shards == old(redis.shards)[k := CompleteShard(old(redis.shards[k]), done)]
              && redis.hashes == FinishHashes(old(redis.hashes), done.persisted, done.conflicts, cacheTtlMs, now)
              && reported == old(reported) + Letters(done.deadLetters)
              && result == SyncResult(|verdict.persisted|, |verdict.conflicts|, |WriteBehind.InvalidLetters(raw)|)
      ensures !result.NoProgress()
    {
      var valid, letters := Sort(raw);
      var poison := |letters|;
      var persisted, conflicts := Store(valid);
      ghost var verdict := BatchResult(persisted, conflicts);
      BatchMakesProgress(old(sink.db.rows), sink.db.rows, raw, verdict);
      letters := ReportConflicts(letters, conflicts);
      var codes := CodesOf(conflicts);
      var listed := Spread(persisted);
      var completed := redis.CompleteSync(k, token, |raw|, listed, codes, letters, cacheTtlMs, now);
      reported := reported + Letters(letters);
      return SyncResult(|persisted|, |conflicts|, poison);
    }

    method CodesOf(links: seq<PendingLink>) returns (codes: seq<string>)
      ensures SetOf(codes) == Codes(links)
    {
      codes := [];
      for i := 0 to |links|
        invariant SetOf(codes) == Codes(links[..i])
      {
        assert links[..i + 1] == links[..i] + [links[i]];
        CodesSnoc(links[..i], links[i]);
        assert (codes + [links[i].code])[..|codes|] == codes;
        assert (codes + [links[i].code])[..|codes| + 1] == codes + [links[i].code];
        SetOfSnoc(codes + [links[i].code], |codes|);
        codes := codes + [links[i].code];
      }
      assert links[..|links|] == links;
    }

    /** One pass of the loop body: peek, and if there is anything, sync it. */
    method TakeBatch(k: nat, token: nat, now: int) returns (taken: nat, result: SyncResult)
      requires k < |redis.shards| && OwnedBy(redis.shards[k], token) && sink.db.Valid() && batchSize >= 1
      modifies redis, sink.db, `reported
      ensures sink.db.Valid() && Grown(old(sink.db.rows), sink.db.rows) && old(reported) <= reported
      ensures PlacedFirst(old(redis.shards)[k].queue, batchSize, sink.db.rows, reported)
      ensures SameOutside(old(redis.shards), redis.shards, {k})
      ensures taken == |FirstOf(old(redis.shards)[k].queue, batchSize)|
      ensures taken == 0 ==> redis.shards == old(redis.shards) && result == EmptyResult
      ensures taken > 0 ==> DrainedBy(old(redis.shards), redis.shards, k, batchSize) && !result.NoProgress()
    {
      var raw := redis.Peek(k, batchSize);
      if |raw| == 0 {
        return 0, EmptyResult;
      }
      assert Drop(redis.shards[k].queue, |raw|) == Drop(redis.shards[k].queue, batchSize);
      ghost var queue, rows, batch := redis.shards[k].queue, sink.db.rows, WriteBehind.Batch(raw);
      result := SyncBatch(k, token, raw, now);
      ghost var verdict := Classify(NewCodes(rows, batch), sink.db.rows, batch);
      BatchPlaced(rows, sink.db.rows, queue, batchSize, verdict);
      PlacedStays(queue, batchSize, sink.db.rows,
                  Letters(WriteBehind.CompletionOf(raw, verdict, cacheTtlMs).deadLetters), sink.db.rows, reported);
      taken := |raw|;
    }

    /** One more batch of a shard that started with `queue`. */
    method NextBatch(k: nat, token: nat, now: int, ghost queue: seq<PendingLink>, ghost batches: nat)
      returns (taken: nat, result: SyncResult)
      requires k < |redis.shards| && OwnedBy(redis.shards[k], token) && sink.db.Valid() && batchSize >= 1
      requires redis.shards[k].queue == Drop(queue, Times(batches, batchSize))
      requires PlacedFirst(queue, Times(batches, batchSize), sink.db.rows, reported)
      modifies redis, sink.db, `reported
      ensures sink.db.Valid() && Grown(old(sink.db.rows), sink.db.rows) && old(reported) <= reported
      ensures SameOutside(old(redis.shards), redis.shards, {k})
      ensures taken == |FirstOf(old(redis.shards)[k].queue, batchSize)|
      ensures taken == 0 ==> redis.shards == old(redis.shards) && result == EmptyResult
      ensures taken > 0 ==> redis.shards[k].lock == None && !result.NoProgress()
      ensures redis.shards[k].queue == Drop(queue, Times(if taken > 0 then batches + 1 else batches, batchSize))
      ensures PlacedFirst(queue, Times(if taken > 0 then batches + 1 else batches, batchSize), sink.db.rows, reported)
    {
      ghost var rows, sent := sink.db.rows, reported;
      taken, result := TakeBatch(k, token, now);
      PlacedNext(queue, batches, batchSize, rows, sent, sink.db.rows, reported);
    }

    /** Batch after batch until one is not full; each takes the lock anew, as completion frees it. */
    method SyncBatches(k: nat, token: nat, lockTtlMs: nat, now: int)
      returns (result: SyncResult, held: bool, ghost batches: nat)
      requires k < |redis.shards| && OwnedBy(redis.shards[k], token) && sink.db.Valid() && batchSize >= 1
      requires redis.shards[k].queue != []
      modifies redis, sink.db, `reported
      ensures sink.db.Valid() && Grown(old(sink.db.rows), sink.db.rows) && old(reported) <= reported
      ensures SameOutside(old(redis.shards), redis.shards, {k}) && batches <= maxBatchesPerShard
      ensures PlacedFirst(old(redis.shards)[k].queue, Times(batches, batchSize), sink.db.rows, reported)
      ensures if held then OwnedBy(redis.shards[k], token) else redis.shards[k].lock == None
      ensures redis.shards[k].queue == Drop(old(redis.shards)[k].queue, Times(batches, batchSize))
      ensures batches < maxBatchesPerShard ==> redis.shards[k].queue == []
      ensures maxBatchesPerShard > 0 ==> !result.NoProgress()
    {
      result, held := EmptyResult, true;
      ghost var before, queue := redis.shards, redis.shards[k].queue;
      PlacedNothing(queue, Times(0, batchSize), sink.db.rows, reported);
      var batchIndex, goOn := 0, true;
      while goOn && batchIndex < maxBatchesPerShard
        invariant batchIndex <= maxBatchesPerShard && (batchIndex == 0 ==> held)
        invariant batchIndex > 0 && goOn ==> !held
        invariant sink.db.Valid() && Grown(old(sink.db.rows), sink.db.rows) && old(reported) <= reported
        invariant SameOutside(before, redis.shards, {k})
        invariant PlacedFirst(queue, Times(batchIndex, batchSize), sink.db.rows, reported)
        invariant if held then OwnedBy(redis.shards[k], token) else redis.shards[k].lock == None
        invariant redis.shards[k].queue == Drop(queue, Times(batchIndex, batchSize))
        invariant !goOn ==> redis.shards[k].queue == []
        invariant batchIndex > 0 ==> !result.NoProgress()
        invariant batchIndex == 0 ==> goOn && redis.shards[k].queue != []
        decreases goOn, maxBatchesPerShard - batchIndex
      {
        if batchIndex > 0 {
          held := redis.AcquireLock(k, token, lockTtlMs, now);
        }
        var taken, one := NextBatch(k, token, now, queue, batchIndex);
        if taken == 0 {
          goOn := false;
        } else {
          held := false;
          result := result.Plus(one);
          goOn := taken == batchSize;
          batchIndex := batchIndex + 1;
        }
      }
      batches := batchIndex;
    }

    /** A shard whose lock has been taken: its batches, and the lock released if it is still held. */
    method SyncLocked(k: nat, token: nat, lockTtlMs: nat, now: int) returns (result: SyncResult)
      requires k < |redis.shards| && OwnedBy(redis.shards[k], token) && sink.db.Valid() && batchSize >= 1
      requires redis.shards[k].queue != []
      modifies redis, sink.db, `reported
      ensures sink.db.Valid() && Grown(old(sink.db.rows), sink.db.rows) && old(reported) <= reported
      ensures SameOutside(old(redis.shards), redis.shards, {k})
      ensures DrainedBy(old(redis.shards), redis.shards, k, PerTick())
      ensures maxBatchesPerShard > 0 ==> !result.NoProgress()
      ensures PlacedFirst(old(redis.shards)[k].queue, PerTick(), sink.db.rows, reported)
    {
      ghost var queue := redis.shards[k].queue;
      var held;
      ghost var batches;
      result, held, batches := SyncBatches(k, token, lockTtlMs, now);
      if held {
        redis.ReleaseLock(k, token);
      }
      TimesGrows(batches, maxBatchesPerShard, batchSize);
      PlacedQueue(queue, Times(batches, batchSize), PerTick(), sink.db.rows, reported);
    }

    /** Takes exactly the next PerTick() records of the shard, or all there are, reports progress
        exactly when there was something to take, and leaves the lock free. A shard that somebody
        else has locked is left alone. */
    method SyncShard(k: nat, token: nat, lockTtlMs: nat, now: int) returns (result: SyncResult)
      requires k < |redis.shards| && sink.db.Valid() && batchSize >= 1
      modifies redis, sink.db, `reported
      ensures sink.db.Valid() && Grown(old(sink.db.rows), sink.db.rows) && old(reported) <= reported
      ensures SameOutside(old(redis.shards), redis.shards, {k})
      ensures old(redis.shards)[k].lock.Some? ==> redis.shards == old(redis.shards) && result == EmptyResult
      ensures old(redis.shards)[k].lock.None? ==> DrainedBy(old(redis.shards), redis.shards, k, PerTick())
      ensures old(redis.shards)[k].lock.None? && maxBatchesPerShard > 0
              ==> (result.NoProgress() <==> old(redis.shards)[k].queue == [])
      ensures old(redis.shards)[k].lock.None?
              ==> PlacedFirst(old(redis.shards)[k].queue, PerTick(), sink.db.rows, reported)
    {
      result := EmptyResult;
      if |redis.shards[k].queue| == 0 {
        PlacedNothing(redis.shards[k].queue, PerTick(), sink.db.rows, reported);
        return;
      }
      var held := redis.AcquireLock(k, token, lockTtlMs, now);
      if held {
        result := SyncLocked(k, token, lockTtlMs, now);
      }
    }

    /** One more shard of a tick that started with the shards `before`. */
    method NextShard(k: nat, token: nat, lockTtlMs: nat, now: int, ghost before: seq<Shard>, ghost visited: set<nat>)
      returns (result: SyncResult)
      requires k < |redis.shards| && k !in visited && redis.shards[k].lock == None && sink.db.Valid() && batchSize >= 1
      requires Went(before, redis.shards, visited, PerTick(), sink.db.rows, reported)
      modifies redis, sink.db, `reported
      ensures sink.db.Valid() && Grown(old(sink.db.rows), sink.db.rows) && old(reported) <= reported
      ensures Went(before, redis.shards, visited + {k}, PerTick(), sink.db.rows, reported)
      ensures NothingQueued(before, visited + {k})
              <==> NothingQueued(before, visited) && old(redis.shards)[k].queue == []
      ensures maxBatchesPerShard > 0 ==> (result.NoProgress() <==> old(redis.shards)[k].queue == [])
    {
      ghost var middle, rows, sent := redis.shards, sink.db.rows, reported;
      result := SyncShard(k, token, lockTtlMs, now);
      PlacedOneShard(before, visited, k, PerTick(), rows, sent, sink.db.rows, reported);
      DrainedOneMore(before, middle, redis.shards, visited, k, PerTick());
    }

    /** Every owned shard once. A tick reports no progress exactly when it found nothing. */
    method Tick(token: nat, lockTtlMs: nat, now: int) returns (result: SyncResult)
      requires Alone()
      modifies redis, sink.db, `reported
      ensures Alone() && Grown(old(sink.db.rows), sink.db.rows) && old(reported) <= reported
      ensures Went(old(redis.shards), redis.shards, Owned(), PerTick(), sink.db.rows, reported)
      ensures maxBatchesPerShard > 0 ==> (result.NoProgress() <==> NothingQueued(old(redis.shards), Owned()))
    {
      result := EmptyResult;
      ghost var before, per, none := redis.shards, PerTick(), true;
      ghost var visited: set<nat> := {};
      for i := 0 to |owned|
        invariant sink.db.Valid() && visited == Listed(owned[..i])
        invariant Grown(old(sink.db.rows), sink.db.rows) && old(reported) <= reported
        invariant Went(before, redis.shards, visited, per, sink.db.rows, reported)
        invariant none == NothingQueued(before, visited)
        invariant maxBatchesPerShard > 0 ==> (result.NoProgress() <==> none)
      {
        var k := owned[i];
        ListedSnoc(owned, i);
        assert k in Owned();
        none := none && redis.shards[k].queue == [];
        var one := NextShard(k, token, lockTtlMs, now, before, visited);
        visited := visited + {k};
        result := result.Plus(one);
      }
      assert owned[..|owned|] == owned;
    }

    /** One more tick of a drain that started with the shards `before`. */
    method NextTick(total: SyncResult, token: nat, lockTtlMs: nat, now: int,
                    ghost before: seq<Shard>, ghost ticks: nat, ghost nothing: bool, ghost taken: nat)
      returns (sum: SyncResult, more: bool, ghost after: nat)
      requires nothing == NothingQueued(before, Owned()) && Told(total, ticks, nothing)
      requires Alone() && maxBatchesPerShard > 0 && (ticks == 0 ==> redis.shards == before)
      requires taken == Times(ticks, PerTick())
      requires Went(before, redis.shards, Owned(), taken, sink.db.rows, reported)
      modifies redis, sink.db, `reported
      ensures Alone() && after == Times(ticks + 1, PerTick())
      ensures Went(before, redis.shards, Owned(), after, sink.db.rows, reported)
      ensures Told(sum, ticks + 1, nothing)
      ensures !more ==> NothingQueued(redis.shards, Owned())
    {
      ghost var middle, rows, sent := redis.shards, sink.db.rows, reported;
      var result := Tick(token, lockTtlMs, now);
      WentOn(before, middle, redis.shards, Owned(), ticks, PerTick(), rows, sent, sink.db.rows, reported);
      sum := total.Plus(result);
      more := result.synced + result.conflicts + result.poison != 0;
      after := Times(ticks + 1, PerTick());
    }

    /** Ticks until one finds nothing, `maxTicks` at most. */
    method TickUntilEmpty(maxTicks: nat, token: nat, lockTtlMs: nat, now: int, ghost nothing: bool)
      returns (total: SyncResult, ghost ticks: nat)
      requires Alone() && maxBatchesPerShard > 0 && nothing == NothingQueued(redis.shards, Owned())
      modifies redis, sink.db, `reported
      ensures Alone() && ticks <= maxTicks
      ensures Went(old(redis.shards), redis.shards, Owned(), Times(ticks, PerTick()), sink.db.rows, reported)
      ensures ticks < maxTicks ==> NothingQueued(redis.shards, Owned()) && ticks > 0
      ensures Told(total, ticks, nothing)
    {
      total := EmptyResult;
      ghost var before := redis.shards;
      var tick, more := 0, true;
      ghost var taken := Times(0, PerTick());
      WentNothing(before, Owned(), PerTick(), sink.db.rows, reported);
      while more && tick < maxTicks
        invariant tick <= maxTicks && Alone() && (tick == 0 ==> more && redis.shards == before)
        invariant taken == Times(tick, PerTick())
        invariant Went(before, redis.shards, Owned(), taken, sink.db.rows, reported)
        invariant !more ==> NothingQueued(redis.shards, Owned())
        invariant Told(total, tick, nothing)
        decreases maxTicks - tick
      {
        total, more, taken := NextTick(total, token, lockTtlMs, now, before, tick, nothing, taken);
        tick := tick + 1;
      }
      ticks := tick;
    }

    /** Drains exactly PerTick() records per tick from every owned shard, so with enough ticks for
        the longest queue all owned queues end up empty; every record taken is in PostgreSQL or was
        dead-lettered. */
    method Drain(maxTicks: nat, token: nat, lockTtlMs: nat, now: int) returns (total: SyncResult)
      requires Alone() && maxBatchesPerShard > 0
      modifies redis, sink.db, `reported
      ensures Alone()
      ensures Went(old(redis.shards), redis.shards, Owned(), Times(maxTicks, PerTick()), sink.db.rows, reported)
      ensures AtMostQueued(old(redis.shards), Owned(), maxTicks) ==> NothingQueued(redis.shards, Owned())
      ensures total.NoProgress() <==> maxTicks == 0 || NothingQueued(old(redis.shards), Owned())
    {
      ghost var before := redis.shards;
      ghost var ticks;
      total, ticks := TickUntilEmpty(maxTicks, token, lockTtlMs, now, NothingQueued(before, Owned()));
      TimesGrows(maxBatchesPerShard, maxBatchesPerShard, batchSize);
      WentAll(before, redis.shards, Owned(), ticks, maxTicks, PerTick(), sink.db.rows, reported);
    }
  }

  // ---- the lanes of mapShards ----

  /** Lanes share the index of the next shard; each runs one shard at a time. */
  datatype Lanes = Lanes(next: nat, running: seq<Option<nat>>, finished: seq<nat>)

  datatype LaneStep = Pick(lane: nat) | Finish(lane: nat)

  predicate LaneEnabled(s: Lanes, count: nat, t: LaneStep) {
    t.lane < |s.running| &&
    match t
    case Pick(lane) => s.running[lane].None? && s.next < count
    case Finish(lane) => s.running[lane].Some?
  }

  function LaneApply(s: Lanes, count: nat, t: LaneStep): Lanes
    requires LaneEnabled(s, count, t)
  {
    match t
    case Pick(lane) => s.(next := s.next + 1, running := s.running[lane := Some(s.next)])
    case Finish(lane) => s.(running := s.running[lane := None], finished := s.finished + [s.running[lane].value])
  }

  function LaneRun(lanes: nat, count: nat, steps: seq<LaneStep>): Lanes {
    if steps == [] then Lanes(0, seq(lanes, i => None), [])
    else
      var before, t := LaneRun(lanes, count, steps[..|steps| - 1]), steps[|steps| - 1];
      if LaneEnabled(before, count, t) then LaneApply(before, count, t) else before
  }

  /** How many lanes are running shard `x`. */
  function Holding(running: seq<Option<nat>>, x: nat): nat {
    if running == [] then 0 else (if running[0] == Some(x) then 1 else 0) + Holding(running[1..], x)
  }

  lemma {:induction false} HoldingUpdate(running: seq<Option<nat>>, lane: nat, o: Option<nat>, x: nat)
    requires lane < |running|
    ensures Holding(running[lane := o], x) + (if running[lane] == Some(x) then 1 else 0)
         == Holding(running, x) + (if o == Some(x) then 1 else 0)
  {
    if lane > 0 {
      assert running[lane := o][1..] == running[1..][lane - 1 := o];
      HoldingUpdate(running[1..], lane - 1, o, x);
    } else {
      assert running[lane := o][1..] == running[1..];
    }
  }

  lemma {:induction false} HoldingNone(running: seq<Option<nat>>, x: nat)
    requires forall i :: 0 <= i < |running| ==> running[i].None?
    ensures Holding(running, x) == 0
  {
    if running != [] {
      HoldingNone(running[1..], x);
    }
  }

  /** A shard below `next` is in one lane's hand or finished, once; no other one is anywhere. */
  predicate HandedOutOnce(s: Lanes, count: nat, x: nat) {
    s.next <= count && multiset(s.finished)[x] + Holding(s.running, x) == if x < s.next then 1 else 0
  }

  lemma LaneStepKept(s: Lanes, count: nat, t: LaneStep, x: nat)
    requires HandedOutOnce(s, count, x) && LaneEnabled(s, count, t)
    ensures HandedOutOnce(LaneApply(s, count, t), count, x)
  {
    HoldingUpdate(s.running, t.lane, if t.Pick? then Some(s.next) else None, x);
    if t.Finish? {
      assert multiset(s.finished + [s.running[t.lane].value])
          == multiset(s.finished) + multiset{s.running[t.lane].value};
    }
  }

  lemma {:induction false} EachShardOnce(lanes: nat, count: nat, steps: seq<LaneStep>, x: nat)
    ensures HandedOutOnce(LaneRun(lanes, count, steps), count, x)
    ensures |LaneRun(lanes, count, steps).running| == lanes
  {
    if steps == [] {
      HoldingNone(LaneRun(lanes, count, steps).running, x);
    } else {
      var before, t := LaneRun(lanes, count, steps[..|steps| - 1]), steps[|steps| - 1];
      EachShardOnce(lanes, count, steps[..|steps| - 1], x);
      if LaneEnabled(before, count, t) {
        LaneStepKept(before, count, t, x);
      }
    }
  }

  /** However the lanes interleave, when none can go on, every shard was run exactly once. */
  lemma AllShardsRunOnce(lanes: nat, count: nat, steps: seq<LaneStep>, x: nat)
    requires lanes >= 1 || count == 0
    requires forall t :: !LaneEnabled(LaneRun(lanes, count, steps), count, t)
    ensures multiset(LaneRun(lanes, count, steps).finished)[x] == if x < count then 1 else 0
  {
    var s := LaneRun(lanes, count, steps);
    EachShardOnce(lanes, count, steps, x);
    forall i | 0 <= i < |s.running|
      ensures s.running[i].None?
    {
      assert !LaneEnabled(s, count, Finish(i));
    }
    HoldingNone(s.running, x);
    if lanes >= 1 {
      assert !LaneEnabled(s, count, Pick(0));
    }
  }
}
