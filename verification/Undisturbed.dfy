/** The steps of write-behind creation, taken with nobody else in between, do what the program's own
    methods do: find, create, and one batch of the sync worker. */
module Undisturbed {
  import opened LinkTable
  import opened PendingLinks
  import opened SyncQueue
  import opened WriteBehind
  import opened Wrappers

  ghost function Next(s: State, t: Step): State {
    if Enabled(s, t) then Apply(s, t) else s
  }

  lemma RunOne(s: State, steps: seq<Step>)
    requires steps != []
    ensures Run(s, steps) == Next(Run(s, steps[..|steps| - 1]), steps[|steps| - 1])
  {
  }

  // ---- find ----

  /** Redis before PostgreSQL is asked: a hash that is stale is gone. */
  function Left(s: State, code: string): Hashes {
    if ReadHash(s.hashes, code, s.now).Stale? then s.hashes - {code} else s.hashes
  }

  lemma FindReads(s: State, c: nat, code: string)
    requires c < |s.clients| && s.clients[c] == Free
    ensures var t := Next(Next(s, ReadCache(c, code)), DeleteStale(c));
            t == s.(hashes := Left(s, code),
                    clients := s.clients[c := if ReadHash(s.hashes, code, s.now).Hit? then Free else Missed(code)])
  {
    var a := Next(s, ReadCache(c, code));
    match ReadHash(s.hashes, code, s.now)
    case Hit(_) =>
    case Miss => assert a.clients[c] == Missed(code);
    case Stale =>
      assert a.clients[c] == Deleting(code);
      assert a.clients[c := Missed(code)] == s.clients[c := Missed(code)];
  }

  lemma FindRefills(s: State, c: nat, code: string, ttlSeconds: nat)
    requires c < |s.clients| && s.clients[c] == Missed(code)
    ensures var t := Next(Next(s, QueryRow(c)), WriteCache(c, ttlSeconds));
            var found := FindRow(s.table, code, s.now);
            && t.clients == s.clients[c := Free] && t.table == s.table
            && t.hashes == if found.Some? then CacheLink(s.hashes, code, found.value, ttlSeconds, s.now) else s.hashes
  {
    var a := Next(s, QueryRow(c));
    if FindRow(s.table, code, s.now).Some? {
      assert a.clients[c] == Caching(code, FindRow(s.table, code, s.now).value);
      assert a.clients[c := Free] == s.clients[c := Free];
    } else {
      assert a.clients[c] == Free;
    }
  }

  lemma RunOfFour(s: State, steps: seq<Step>)
    requires |steps| == 4
    ensures Run(s, steps) == Next(Next(Next(Next(s, steps[0]), steps[1]), steps[2]), steps[3])
  {
    RunOne(s, steps);
    RunOfThree(s, steps[..3]);
  }

  lemma RunOfThree(s: State, steps: seq<Step>)
    requires |steps| == 3
    ensures Run(s, steps) == Next(Next(Next(s, steps[0]), steps[1]), steps[2])
  {
    RunOne(s, steps);
    RunOne(s, steps[..2]);
    RunOne(s, steps[..2][..1]);
    assert steps[..2][..1][..0] == [];
  }

  lemma FindRuns(s: State, c: nat, code: string, ttlSeconds: nat)
    requires c < |s.clients| && s.clients[c] == Free
    ensures var read := Next(Next(s, ReadCache(c, code)), DeleteStale(c));
            var t := Next(Next(read, QueryRow(c)), WriteCache(c, ttlSeconds));
            var found := FindRow(s.table, code, s.now);
            && t.clients == s.clients && t.table == s.table
            && t.hashes == if ReadHash(s.hashes, code, s.now).Hit? then s.hashes
                           else if found.Some? then CacheLink(Left(s, code), code, found.value, ttlSeconds, s.now)
                           else Left(s, code)
  {
    FindReads(s, c, code);
    var a := Next(Next(s, ReadCache(c, code)), DeleteStale(c));
    if ReadHash(s.hashes, code, s.now).Hit? {
      FreeStays(a, c, ttlSeconds);
      assert a.clients == s.clients;
    } else {
      FindRefills(a, c, code, ttlSeconds);
      assert a.clients[c := Free] == s.clients;
    }
  }

  lemma FreeStays(s: State, c: nat, ttlSeconds: nat)
    requires c < |s.clients| && s.clients[c] == Free
    ensures Next(Next(s, QueryRow(c)), WriteCache(c, ttlSeconds)) == s
  {
  }

  /** The four steps of find leave Redis as CachedLinkStore.Find does: as it was after a hit, and
      otherwise without a stale hash and with the row that PostgreSQL has, if it is live. */
  lemma FindIsFind(s: State, c: nat, code: string, ttlSeconds: nat, steps: seq<Step>)
    requires c < |s.clients| && s.clients[c] == Free
    requires steps == [ReadCache(c, code), DeleteStale(c), QueryRow(c), WriteCache(c, ttlSeconds)]
    ensures var t := Run(s, steps);
            var found := FindRow(s.table, code, s.now);
            && t.clients == s.clients && t.table == s.table
            && t.hashes == if ReadHash(s.hashes, code, s.now).Hit? then s.hashes
                           else if found.Some? then CacheLink(Left(s, code), code, found.value, ttlSeconds, s.now)
                           else Left(s, code)
  {
    RunOfFour(s, steps);
    FindRuns(s, c, code, ttlSeconds);
  }

  // ---- create ----

  lemma CreateRuns(s: State, c: nat, code: string, row: Row, checked: bool, ttlSeconds: nat)
    requires c < |s.clients| && s.clients[c] == Free
    ensures var t := Next(Next(Next(s, BeginStore(c, code, row, checked)), Store(c)), WriteCache(c, ttlSeconds));
            var refused := (checked && code in s.hashes && s.hashes[code].pending) || code in s.table;
            && t.clients == s.clients
            && t.table == (if refused then s.table else s.table[code := row])
            && t.hashes == if refused then s.hashes else CacheLink(s.hashes, code, row, ttlSeconds, s.now)
  {
    var a := Next(s, BeginStore(c, code, row, checked));
    if checked && code in s.hashes && s.hashes[code].pending {
      assert a == s;
      NothingToStore(s, c, ttlSeconds);
    } else {
      assert a == s.(clients := s.clients[c := Storing(code, row)]);
      StoreAndCache(s, a, c, code, row, ttlSeconds);
    }
  }

  lemma NothingToStore(s: State, c: nat, ttlSeconds: nat)
    requires c < |s.clients| && s.clients[c] == Free
    ensures Next(Next(s, Store(c)), WriteCache(c, ttlSeconds)) == s
  {
  }

  /** The three steps of a synchronous create, with the alias check or without: refused for a pending
      alias or a code with a row, and otherwise stored and cached. */
  lemma CreateIsCreate(s: State, c: nat, code: string, row: Row, checked: bool, ttlSeconds: nat, steps: seq<Step>)
    requires c < |s.clients| && s.clients[c] == Free
    requires steps == [BeginStore(c, code, row, checked), Store(c), WriteCache(c, ttlSeconds)]
    ensures var t := Run(s, steps);
            var refused := (checked && code in s.hashes && s.hashes[code].pending) || code in s.table;
            && t.clients == s.clients
            && t.table == (if refused then s.table else s.table[code := row])
            && t.hashes == if refused then s.hashes else CacheLink(s.hashes, code, row, ttlSeconds, s.now)
  {
    RunOfThree(s, steps);
    CreateRuns(s, c, code, row, checked, ttlSeconds);
  }

  lemma StoreAndCache(s: State, a: State, c: nat, code: string, row: Row, ttlSeconds: nat)
    requires c < |s.clients| && s.clients[c] == Free && a == s.(clients := s.clients[c := Storing(code, row)])
    ensures var t := Next(Next(a, Store(c)), WriteCache(c, ttlSeconds));
            && t.clients == s.clients
            && t.table == (if code in s.table then s.table else s.table[code := row])
            && t.hashes == if code in s.table then s.hashes else CacheLink(s.hashes, code, row, ttlSeconds, s.now)
  {
    var b := Next(a, Store(c));
    if code in s.table {
      assert b.clients == s.clients;
    } else {
      assert b.clients[c] == Caching(code, row);
      assert b.clients[c := Free] == s.clients;
    }
  }

  /** ENQUEUE_LINK as a step: refused, nothing changes; accepted, the hash and the queue entry appear. */
  lemma EnqueueIsEnqueue(s: State, link: PendingLink, maxPending: nat)
    requires Enabled(s, Enqueue(link, maxPending))
    ensures var t, k := Apply(s, Enqueue(link, maxPending)), s.layout(link.code);
            if link.code in s.hashes || |s.shards[k].queue| >= maxPending then t == s
            else
              && t.hashes == s.hashes[link.code := PendingHash(link, s.now)]
              && t.shards == s.shards[k := s.shards[k].(queue := s.shards[k].queue + [link])]
              && t.table == s.table && Pushed(t, link)
  {
  }

  // ---- one batch of the worker ----

  function LockedShard(s: State, k: nat, lockTtlMs: nat): Shard
    requires k < |s.shards|
  {
    s.shards[k].(lock := Some(Lock(s.nextToken, s.now + lockTtlMs)))
  }

  /** A worker that finds the shard free comes to hold the head of its queue under its own token. */
  lemma BatchIsRead(s: State, w: nat, k: nat, lockTtlMs: nat, count: nat)
    requires w < |s.workers| && s.workers[w].pc.Idle? && k < |s.shards| == |s.histories| && s.shards[k].lock.None?
    requires FirstOf(s.shards[k].queue, count) != []
    ensures var t := Next(Next(Next(s, Begin(w, k)), TryLock(w, lockTtlMs)), Peek(w, count));
            t == s.(workers := s.workers[w := Worker(Inserting(FirstOf(s.shards[k].queue, count)), k, s.nextToken)],
                    nextToken := s.nextToken + 1,
                    shards := s.shards[k := LockedShard(s, k, lockTtlMs)])
  {
    var a := Next(s, Begin(w, k));
    assert a.workers[w] == Worker(Locking, k, s.nextToken);
    var b := Next(a, TryLock(w, lockTtlMs));
    assert b.workers == s.workers[w := Worker(Peeking, k, s.nextToken)];
    assert b.shards == s.shards[k := LockedShard(s, k, lockTtlMs)];
    PeekReads(b, w, k, count);
    assert Next(b, Peek(w, count)).workers
        == s.workers[w := Worker(Inserting(FirstOf(s.shards[k].queue, count)), k, s.nextToken)];
  }

  lemma PeekReads(s: State, w: nat, k: nat, count: nat)
    requires w < |s.workers| && s.workers[w].pc.Peeking? && s.workers[w].shard == k < |s.shards| == |s.histories|
    requires FirstOf(s.shards[k].queue, count) != []
    ensures Next(s, Peek(w, count)) == At(s, w, Inserting(FirstOf(s.shards[k].queue, count)))
  {
  }

  lemma InsertStep(s: State, w: nat, raw: seq<PendingLink>)
    requires w < |s.workers| && s.workers[w].pc == Inserting(raw)
    ensures Enabled(s, Insert(w))
    ensures Apply(s, Insert(w)) == At(s, w, Selecting(raw, NewCodes(s.table, Batch(raw)))).(
                                     table := InsertAbsent(s.table, Batch(raw)))
  {
  }

  lemma SelectStep(s: State, w: nat, raw: seq<PendingLink>, batch: seq<PendingLink>, written: set<string>,
                   verdict: BatchResult)
    requires w < |s.workers| && s.workers[w].pc == Selecting(raw, written) && batch == Batch(raw)
    requires verdict == Classify(written, s.table, batch)
    ensures Next(s, Select(w)) == At(s, w, Completing(raw, verdict))
  {
  }

  lemma BatchIsJudged(s: State, w: nat, raw: seq<PendingLink>, batch: seq<PendingLink>, written: set<string>, u: Table,
                      verdict: BatchResult)
    requires w < |s.workers| && s.workers[w].pc == Inserting(raw) && batch == Batch(raw)
    requires written == NewCodes(s.table, batch) && u == InsertAbsent(s.table, batch)
    requires verdict == Classify(written, u, batch)
    ensures Next(Next(s, Insert(w)), Select(w)) == At(s, w, Completing(raw, verdict)).(table := u)
  {
    InsertStep(s, w, raw);
    var a := At(s, w, Selecting(raw, written)).(table := u);
    SelectStep(a, w, raw, batch, written, verdict);
    assert a.workers[w := a.workers[w].(pc := Completing(raw, verdict))]
        == s.workers[w := s.workers[w].(pc := Completing(raw, verdict))];
  }

  /** And ends its batch as LinkSyncWorker's SyncBatch does. */
  lemma BatchIsSynced(s: State, w: nat, k: nat, raw: seq<PendingLink>, cacheTtlMs: nat, t: State)
    requires w < |s.workers| && s.workers[w].pc == Inserting(raw) && s.workers[w].shard == k
    requires k < |s.shards| == |s.histories| && OwnedBy(s.shards[k], s.workers[w].token)
    requires t == Next(Next(Next(s, Insert(w)), Select(w)), Complete(w, cacheTtlMs))
    ensures |t.histories| == |s.histories|
    ensures var batch := Batch(raw);
            var verdict := Classify(NewCodes(s.table, batch), t.table, batch);
            var done := CompletionOf(raw, verdict, cacheTtlMs);
            && t.table == InsertAbsent(s.table, batch)
            && t.shards == s.shards[k := CompleteShard(s.shards[k], done)]
            && t.hashes == FinishHashes(s.hashes, done.persisted, done.conflicts, cacheTtlMs, s.now)
            && t.histories[k].dead == s.histories[k].dead + done.deadLetters
            && t.histories[k].consumed == s.histories[k].consumed + FirstOf(s.shards[k].queue, |raw|)
  {
    var batch := Batch(raw);
    var verdict := Classify(NewCodes(s.table, batch), InsertAbsent(s.table, batch), batch);
    BatchIsJudged(s, w, raw, batch, NewCodes(s.table, batch), InsertAbsent(s.table, batch), verdict);
    CompleteStep(Next(Next(s, Insert(w)), Select(w)), w, raw, verdict, cacheTtlMs);
  }

  lemma CompleteStep(s: State, w: nat, raw: seq<PendingLink>, verdict: BatchResult, cacheTtlMs: nat)
    requires w < |s.workers| && s.workers[w].pc == Completing(raw, verdict)
    requires s.workers[w].shard < |s.shards| == |s.histories|
    requires OwnedBy(s.shards[s.workers[w].shard], s.workers[w].token)
    ensures var t, k := Next(s, Complete(w, cacheTtlMs)), s.workers[w].shard;
            var done := CompletionOf(raw, verdict, cacheTtlMs);
            && t.table == s.table
            && t.shards == s.shards[k := CompleteShard(s.shards[k], done)]
            && t.hashes == FinishHashes(s.hashes, done.persisted, done.conflicts, cacheTtlMs, s.now)
            && |t.histories| == |s.histories|
            && t.histories[k].dead == s.histories[k].dead + done.deadLetters
            && t.histories[k].consumed == s.histories[k].consumed + FirstOf(s.shards[k].queue, |raw|)
  {
  }
}
