/** The Redis side of write-behind creation: link hashes, and per shard a queue, a lock and the
    dead letters (src/store/link-sync-worker.ts, src/store/write-behind-link-store.ts,
    src/store/cached-link-store.ts). Each Lua script and each command is one atomic step. */
module SyncQueue {
  import opened LinkTable
  import opened PendingLinks
  import opened Wrappers

  const DEAD_LETTER_CAP: nat := 10000

  datatype Lock = Lock(token: nat, deadline: int)

  datatype Reason = Invalid | Conflict

  datatype DeadLetter = DeadLetter(reason: Reason, link: PendingLink)

  datatype Shard = Shard(queue: seq<PendingLink>, lock: Option<Lock>, dead: seq<DeadLetter>)

  const EmptyShard := Shard([], None, [])

  /** A link hash; `deadline` is when Redis drops the key. */
  datatype Hash = Hash(row: Row, pending: bool, deadline: Option<int>)

  type Hashes = map<string, Hash>

  function Min(a: int, b: int): int {
    if a < b then a else b
  }

  function Max(a: int, b: int): int {
    if a > b then a else b
  }

  /** LTRIM key -n -1. */
  function LastOf<T>(s: seq<T>, n: nat): seq<T> {
    if |s| <= n then s else s[|s| - n..]
  }

  /** LTRIM key n -1. */
  function Drop<T>(s: seq<T>, n: nat): seq<T> {
    if n <= |s| then s[n..] else []
  }

  function FirstOf<T>(s: seq<T>, n: nat): seq<T> {
    if |s| <= n then s else s[..n]
  }

  /** The first `n` entries, or all there are, and the rest; and the last ones. */
  lemma PartsOfList<T>(s: seq<T>, n: nat)
    ensures FirstOf(s, n) + Drop(s, n) == s && |FirstOf(s, n)| == Min(|s|, n)
    ensures |LastOf(s, n)| == Min(|s|, n) && LastOf(s, n) == s[|s| - |LastOf(s, n)|..]
  {
  }

  /** Capping after every push keeps the last letters of the whole history. */
  lemma LastOfLast<T>(history: seq<T>, more: seq<T>, n: nat)
    ensures LastOf(LastOf(history, n) + more, n) == LastOf(history + more, n)
  {
    var kept, dropped := LastOf(history, n), |history| - Min(|history|, n);
    assert kept == history[dropped..];
    LastOfEnd(history + more, kept + more, dropped, n);
  }

  /** The end of a list's end that is long enough. */
  lemma LastOfEnd<T>(s: seq<T>, end: seq<T>, dropped: nat, n: nat)
    requires dropped <= |s| && end == s[dropped..] && (dropped == 0 || |end| >= n)
    ensures LastOf(end, n) == LastOf(s, n)
  {
    if |end| > n {
      SuffixOfSuffix(s, dropped, n);
    }
  }

  lemma SuffixOfSuffix<T>(s: seq<T>, from: nat, n: nat)
    requires from <= |s| && n <= |s| - from
    ensures s[from..][|s| - from - n..] == s[|s| - n..]
  {
  }

  // ---- ENQUEUE_LINK ----

  datatype Outcome = Accepted | CodeTaken | QueueFull

  function PendingHash(link: PendingLink, now: int): Hash {
    Hash(RowOf(link), true,
         if link.expiresAt.None? then None else Some(now + Max(1, link.expiresAt.value - link.createdAt)))
  }

  /** A pending hash shows the link as it is; one of a permanent link never goes, any other not
      before its link has expired, and not a moment after that when it was queued at once. */
  lemma PendingHashLives(link: PendingLink, now: int)
    ensures var h := PendingHash(link, now);
            && h.row == Row(link.targetUrl, link.createdAt, link.expiresAt) && h.pending
            && (link.expiresAt.None? ==> h.deadline.None?)
            && (link.expiresAt.Some? ==> h.deadline.Some? && h.deadline.value > now)
            && (link.expiresAt.Some? && link.createdAt <= now ==> h.deadline.value >= link.expiresAt.value)
            && (link.expiresAt.Some? && link.createdAt == now < link.expiresAt.value
                ==> h.deadline == link.expiresAt)
  {
  }

  function EnqueueOutcome(hashes: Hashes, shard: Shard, code: string, maxPending: nat): Outcome {
    if code in hashes then CodeTaken else if |shard.queue| >= maxPending then QueueFull else Accepted
  }

  // ---- lock commands ----

  function Acquire(shard: Shard, token: nat, ttlMs: nat, now: int): Shard {
    if shard.lock.None? then shard.(lock := Some(Lock(token, now + ttlMs))) else shard
  }

  predicate OwnedBy(shard: Shard, token: nat) {
    shard.lock.Some? && shard.lock.value.token == token
  }

  function Release(shard: Shard, token: nat): Shard {
    if OwnedBy(shard, token) then shard.(lock := None) else shard
  }

  /** A free lock is taken with its deadline, a lock is released by its own token, and nothing else of the
      shard changes. */
  lemma LockLaws(shard: Shard, token: nat, ttlMs: nat, now: int)
    ensures shard.lock == None ==> Acquire(shard, token, ttlMs, now) == shard.(lock := Some(Lock(token, now + ttlMs)))
    ensures shard.lock != None ==> Acquire(shard, token, ttlMs, now) == shard
    ensures shard.lock.Some? && shard.lock.value.token == token ==> Release(shard, token) == shard.(lock := None)
    ensures !(shard.lock.Some? && shard.lock.value.token == token) ==> Release(shard, token) == shard
  {
  }

  // ---- COMPLETE_SYNC ----

  datatype Completion = Completion(consumed: nat, persisted: set<string>, conflicts: set<string>,
                                   deadLetters: seq<DeadLetter>, cacheTtlMs: nat)

  /** A persisted pending hash becomes a cache entry with at most the cache's lifetime. */
  function Settled(h: Hash, ttlMs: nat, now: int): Hash {
    if !h.pending then h
    else h.(pending := false,
            deadline := if h.deadline.None? || h.deadline.value > now + ttlMs then Some(now + ttlMs) else h.deadline)
  }

  /** A settled hash keeps its link and goes at the latest when the cache's lifetime is over, and
      earlier only when it would have gone then anyway. */
  lemma SettledLives(h: Hash, ttlMs: nat, now: int)
    ensures var r := Settled(h, ttlMs, now);
            && r.row == h.row && !r.pending
            && (!h.pending ==> r == h)
            && (h.pending ==> r.deadline.Some? && r.deadline.value <= now + ttlMs)
            && (h.pending && h.deadline.Some? ==> r.deadline.value <= h.deadline.value)
            && (h.pending ==> r.deadline.value == now + ttlMs || r.deadline == h.deadline)
  {
  }

  /** What completion leaves of the hashes: pending ones of persisted codes are settled, pending
      ones of conflicting codes are gone, everything else is untouched. */
  function FinishHashes(hashes: Hashes, persisted: set<string>, conflicts: set<string>, ttlMs: nat, now: int): Hashes {
    map c | c in hashes && !(c in conflicts && c !in persisted && hashes[c].pending) ::
      if c in persisted then Settled(hashes[c], ttlMs, now) else hashes[c]
  }

  /** Of each hash: settled when it was pending and persisted, gone when it was pending and in
      conflict, and otherwise as it was. */
  lemma FinishedHash(hashes: Hashes, persisted: set<string>, conflicts: set<string>, ttlMs: nat, now: int, c: string)
    ensures var r := FinishHashes(hashes, persisted, conflicts, ttlMs, now);
            && (c !in hashes ==> c !in r)
            && (c in hashes && !hashes[c].pending ==> c in r && r[c] == hashes[c])
            && (c in hashes && c !in persisted && c !in conflicts ==> c in r && r[c] == hashes[c])
            && (c in hashes && hashes[c].pending && c in persisted
                ==> c in r && !r[c].pending && r[c].row == hashes[c].row
                    && r[c].deadline.Some? && r[c].deadline.value <= now + ttlMs)
            && (c in hashes && hashes[c].pending && c in conflicts && c !in persisted ==> c !in r)
  {
  }

  function CompleteShard(shard: Shard, done: Completion): Shard {
    Shard(Drop(shard.queue, done.consumed), None,
          if done.deadLetters == [] then shard.dead else LastOf(shard.dead + done.deadLetters, DEAD_LETTER_CAP))
  }

  /** The queue loses what was consumed, the lock is free, and the last 10,000 letters are kept. */
  lemma CompletedShard(shard: Shard, done: Completion)
    ensures var r, all := CompleteShard(shard, done), shard.dead + done.deadLetters;
            && r.lock == None && r.queue == shard.queue[Min(done.consumed, |shard.queue|)..]
            && (done.deadLetters == [] ==> r.dead == shard.dead)
            && (done.deadLetters != [] ==> |r.dead| == Min(10000, |all|) && r.dead == all[|all| - |r.dead|..])
  {
    PartsOfList(shard.dead + done.deadLetters, DEAD_LETTER_CAP);
  }

  // ---- cached reads and writes ----

  datatype CacheRead = Hit(row: Row) | Miss | Stale

  /** Stale hashes, malformed or expired, are deleted by the reader in a second step. */
  function ReadHash(hashes: Hashes, code: string, now: int): CacheRead {
    if code !in hashes then Miss
    else
      var row := hashes[code].row;
      if row.targetUrl == "" || (row.expiresAt.Some? && row.expiresAt.value <= now) then Stale else Hit(row)
  }

  /** A hash is served exactly while its link has a target and is not expired; without a hash there is
      a miss, and any other hash is stale. */
  lemma ReadExactly(hashes: Hashes, code: string, now: int)
    ensures ReadHash(hashes, code, now) == Miss <==> code !in hashes
    ensures ReadHash(hashes, code, now).Hit?
       <==> && code in hashes && hashes[code].row.targetUrl != ""
            && (hashes[code].row.expiresAt.None? || now < hashes[code].row.expiresAt.value)
    ensures ReadHash(hashes, code, now).Hit? ==> ReadHash(hashes, code, now).row == hashes[code].row
  {
  }

  /** HSET of the link's fields and EXPIRE in one transaction; a pending flag stays. A link in
      its last second is not cached but dropped. */
  function CacheLink(hashes: Hashes, code: string, row: Row, ttlSeconds: nat, now: int): Hashes {
    var pending := code in hashes && hashes[code].pending;
    if row.expiresAt.None? then hashes[code := Hash(row, pending, Some(now + ttlSeconds * 1000))]
    else
      var remaining := (row.expiresAt.value - now) / 1000;
      if remaining <= 0 then hashes - {code}
      else hashes[code := Hash(row, pending, Some(now + Min(ttlSeconds, remaining) * 1000))]
  }

  /** Caching touches no other code. The link is stored as it is, with its pending flag, for the
      cache's lifetime or the whole seconds that the link has left, whichever is shorter; in its last
      second it is dropped. */
  lemma CachedLives(hashes: Hashes, code: string, row: Row, ttlSeconds: nat, now: int)
    ensures var r := CacheLink(hashes, code, row, ttlSeconds, now);
            && (forall c :: c != code ==> (c in r <==> c in hashes) && (c in r ==> r[c] == hashes[c]))
            && (code in r <==> row.expiresAt.None? || row.expiresAt.value >= now + 1000)
            && (code in r ==>
                  && r[code].row == row && (r[code].pending <==> code in hashes && hashes[code].pending)
                  && r[code].deadline.Some?
                  && var left := r[code].deadline.value - now;
                     && left % 1000 == 0 && left <= ttlSeconds * 1000
                     && (row.expiresAt.Some? ==> now + left <= row.expiresAt.value)
                     && (left == ttlSeconds * 1000 || (row.expiresAt.Some? && row.expiresAt.value < now + left + 1000)))
  {
  }

  class RedisServer {
    var hashes: Hashes
    var shards: seq<Shard>

    constructor (shardCount: nat)
      ensures hashes == map[] && shards == seq(shardCount, i => EmptyShard)
    {
      hashes := map[];
      shards := seq(shardCount, i => EmptyShard);
    }

    method EnqueueLink(k: nat, link: PendingLink, maxPending: nat, now: int) returns (r: Outcome)
      requires k < |shards|
      modifies this
      ensures r == EnqueueOutcome(old(hashes), old(shards[k]), link.code, maxPending)
      ensures r == CodeTaken <==> link.code in old(hashes)
      ensures r == QueueFull <==> link.code !in old(hashes) && |old(shards[k]).queue| >= maxPending
      ensures r != Accepted ==> hashes == old(hashes) && shards == old(shards)
      ensures r == Accepted ==> hashes == old(hashes)[link.code := PendingHash(link, now)]
      ensures r == Accepted ==>
                shards == old(shards)[k := old(shards[k]).(queue := old(shards[k]).queue + [link])]
    {
      if link.code in hashes {
        return CodeTaken;
      }
      if |shards[k].queue| >= maxPending {
        return QueueFull;
      }
      hashes := hashes[link.code := PendingHash(link, now)];
      shards := shards[k := shards[k].(queue := shards[k].queue + [link])];
      return Accepted;
    }

    method AcquireLock(k: nat, token: nat, ttlMs: nat, now: int) returns (ok: bool)
      requires k < |shards|
      modifies this`shards
      ensures shards == old(shards)[k := Acquire(old(shards[k]), token, ttlMs, now)]
      ensures ok <==> old(shards[k]).lock.None?
    {
      ok := shards[k].lock.None?;
      if ok {
        shards := shards[k := shards[k].(lock := Some(Lock(token, now + ttlMs)))];
      }
    }

    method Peek(k: nat, count: nat) returns (raw: seq<PendingLink>)
      requires k < |shards|
      ensures raw == FirstOf(shards[k].queue, count)
    {
      raw := if |shards[k].queue| <= count then shards[k].queue else shards[k].queue[..count];
    }

    /** The script runs its loops only while the token still owns the lock. */
    method CompleteSync(k: nat, token: nat, consumed: nat, persisted: seq<string>, conflicts: seq<string>,
                        deadLetters: seq<DeadLetter>, cacheTtlMs: nat, now: int) returns (ok: bool)
      requires k < |shards|
      modifies this
      ensures ok <==> old(shards[k]).lock.Some? && old(shards[k]).lock.value.token == token
      ensures !ok ==> hashes == old(hashes) && shards == old(shards)
      ensures ok ==> hashes == FinishHashes(old(hashes), SetOf(persisted), SetOf(conflicts), cacheTtlMs, now)
      ensures ok ==> shards == old(shards)[k := CompleteShard(old(shards[k]),
                Completion(consumed, SetOf(persisted), SetOf(conflicts), deadLetters, cacheTtlMs))]
    {
      if shards[k].lock.None? || shards[k].lock.value.token != token {
        return false;
      }
      var h := hashes;
      for index := 0 to |persisted|
        modifies {}
        invariant h == FinishHashes(hashes, SetOf(persisted[..index]), {}, cacheTtlMs, now)
      {
        var code := persisted[index];
        SetOfSnoc(persisted, index);
        if code in h && h[code].pending {
          h := h[code := Settled(h[code], cacheTtlMs, now)];
        }
      }
      for index := 0 to |conflicts|
        modifies {}
        invariant h == FinishHashes(hashes, SetOf(persisted[..|persisted|]), SetOf(conflicts[..index]), cacheTtlMs, now)
      {
        var code := conflicts[index];
        SetOfSnoc(conflicts, index);
        if code in h && h[code].pending {
          h := h - {code};
        }
      }
      assert persisted[..|persisted|] == persisted && conflicts[..|conflicts|] == conflicts;
      hashes := h;
      var dead := shards[k].dead;
      for index := 0 to |deadLetters|
        modifies {}
        invariant dead == shards[k].dead + deadLetters[..index]
      {
        dead := dead + [deadLetters[index]];
      }
      assert dead == shards[k].dead + deadLetters;
      if |deadLetters| > 0 {
        dead := LastOf(dead, DEAD_LETTER_CAP);
      }
      shards := shards[k := Shard(Drop(shards[k].queue, consumed), None, dead)];
      return true;
    }

    method ReleaseLock(k: nat, token: nat)
      requires k < |shards|
      modifies this`shards
      ensures shards == old(shards)[k := Release(old(shards[k]), token)]
    {
      if shards[k].lock.Some? && shards[k].lock.value.token == token {
        shards := shards[k := shards[k].(lock := None)];
      }
    }
  }

  function SetOf(codes: seq<string>): set<string> {
    set c | c in codes
  }

  lemma SetOfSnoc(codes: seq<string>, index: nat)
    requires index < |codes|
    ensures SetOf(codes[..index + 1]) == SetOf(codes[..index]) + {codes[index]}
  {
    assert codes[..index + 1] == codes[..index] + [codes[index]];
  }

  /** Redis and PostgreSQL behind one cached store; each method runs without interference. */
  class CachedLinkStore {
    const redis: RedisServer
    const source: PostgresLinkStore
    const ttlSeconds: nat

    constructor (redis: RedisServer, source: PostgresLinkStore, ttlSeconds: nat)
      ensures this.redis == redis && this.source == source && this.ttlSeconds == ttlSeconds
    {
      this.redis, this.source, this.ttlSeconds := redis, source, ttlSeconds;
    }

    method CacheSafely(code: string, row: Row, ready: bool, now: int)
      modifies redis`hashes
      ensures redis.hashes == if ready then CacheLink(old(redis.hashes), code, row, ttlSeconds, now)
                              else old(redis.hashes)
    {
      if !ready {
        return;
      }
      var ttl := ttlSeconds;
      if row.expiresAt.Some? {
        var remaining := (row.expiresAt.value - now) / 1000;
        if remaining <= 0 {
          redis.hashes := redis.hashes - {code};
          return;
        }
        ttl := Min(ttl, remaining);
      }
      var pending := code in redis.hashes && redis.hashes[code].pending;
      redis.hashes := redis.hashes[code := Hash(row, pending, Some(now + ttl * 1000))];
    }

    method ReadSafely(code: string, ready: bool, now: int) returns (r: Option<Row>)
      modifies redis`hashes
      ensures ready ==> match ReadHash(old(redis.hashes), code, now)
                        case Hit(row) => r == Some(row) && redis.hashes == old(redis.hashes)
                        case Miss => r == None && redis.hashes == old(redis.hashes)
                        case Stale => r == None && redis.hashes == old(redis.hashes) - {code}
      ensures !ready ==> r == None && redis.hashes == old(redis.hashes)
    {
      if !ready || code !in redis.hashes {
        return None;
      }
      var row := redis.hashes[code].row;
      if row.targetUrl == "" || (row.expiresAt.Some? && row.expiresAt.value <= now) {
        redis.hashes := redis.hashes - {code};
        return None;
      }
      return Some(row);
    }

    /** A hit is served from Redis; anything else from PostgreSQL, and then cached. */
    method Find(code: string, ready: bool, now: int) returns (r: Option<Row>)
      modifies redis`hashes
      ensures ready && ReadHash(old(redis.hashes), code, now).Hit? ==>
                r == Some(old(redis.hashes)[code].row) && redis.hashes == old(redis.hashes)
      ensures !ready || !ReadHash(old(redis.hashes), code, now).Hit? ==>
                r == FindRow(source.db.rows, code, now)
      ensures !ready ==> redis.hashes == old(redis.hashes)
      ensures ready && !ReadHash(old(redis.hashes), code, now).Hit? ==>
                var left := if ReadHash(old(redis.hashes), code, now).Stale? then old(redis.hashes) - {code}
                            else old(redis.hashes);
                redis.hashes == if r.Some? then CacheLink(left, code, r.value, ttlSeconds, now) else left
    {
      var cached := ReadSafely(code, ready, now);
      if cached.Some? {
        return cached;
      }
      r := source.Find(code, now);
      if r.Some? {
        CacheSafely(code, r.value, ready, now);
      }
    }

    method Create(code: string, row: Row, ready: bool, now: int) returns (r: Option<Row>)
      requires source.db.Valid()
      modifies redis`hashes, source.db
      ensures source.db.Valid()
      ensures r == (if code in old(source.db.rows) then None else Some(row))
      ensures source.db.rows == (if r.Some? then old(source.db.rows)[code := row] else old(source.db.rows))
      ensures redis.hashes == if r.Some? && ready then CacheLink(old(redis.hashes), code, row, ttlSeconds, now)
                              else old(redis.hashes)
    {
      r := source.Create(code, row);
      if r.Some? {
        CacheSafely(code, row, ready, now);
      }
    }
  }

  class WriteBehindLinkStore {
    const synchronous: CachedLinkStore
    const redis: RedisServer
    const maxPendingPerShard: nat
    const shardOf: string -> nat

    constructor (synchronous: CachedLinkStore, redis: RedisServer, maxPendingLinks: nat, shards: nat,
                 shardOf: string -> nat)
      requires maxPendingLinks >= 1 && shards >= 1
      ensures this.synchronous == synchronous && this.redis == redis && this.shardOf == shardOf
      // the smallest per-shard bound of at least one whose total reaches the requested one
      ensures maxPendingPerShard >= 1 && maxPendingPerShard * shards >= maxPendingLinks
      ensures maxPendingPerShard == 1 || (maxPendingPerShard - 1) * shards < maxPendingLinks
    {
      this.synchronous, this.redis, this.shardOf := synchronous, redis, shardOf;
      maxPendingPerShard := Max(1, (maxPendingLinks + shards - 1) / shards);
      new;
      CeilingDivision(maxPendingLinks, shards);
    }

    static lemma CeilingDivision(n: nat, d: nat)
      requires n >= 1 && d >= 1
      ensures var q := (n + d - 1) / d; q >= 1 && q * d >= n && (q - 1) * d < n
    {
      var q, r := (n + d - 1) / d, (n + d - 1) % d;
      assert n + d - 1 == d * q + r;
      assert (q - 1) * d == d * q - d;
      assert q < 1 ==> d * q <= 0;
    }

    ghost predicate Queued(link: PendingLink, now: int)
      requires shardOf(link.code) < |redis.shards|
      reads redis
    {
      && link.code in redis.hashes && redis.hashes[link.code] == PendingHash(link, now)
      && link in redis.shards[shardOf(link.code)].queue
    }

    /** What ENQUEUE_LINK will answer. */
    ghost function Answer(link: PendingLink): Outcome
      requires shardOf(link.code) < |redis.shards|
      reads redis
    {
      EnqueueOutcome(redis.hashes, redis.shards[shardOf(link.code)], link.code, maxPendingPerShard)
    }

    /** The shards and hashes after ENQUEUE_LINK was or was not run. */
    ghost function ShardsAfter(link: PendingLink, runs: bool): seq<Shard>
      requires shardOf(link.code) < |redis.shards|
      reads redis
    {
      var k := shardOf(link.code);
      if runs && Answer(link) == Accepted
      then redis.shards[k := redis.shards[k].(queue := redis.shards[k].queue + [link])] else redis.shards
    }

    ghost function HashesAfter(link: PendingLink, runs: bool, now: int): Hashes
      requires shardOf(link.code) < |redis.shards|
      reads redis
    {
      if runs && Answer(link) == Accepted then redis.hashes[link.code := PendingHash(link, now)] else redis.hashes
    }

    /** Queued in Redis, or refused there, or handed to the synchronous store: because Redis is not
        ready, because the script threw, or because the queue is full. A script that threw may still
        have run, which `ran` says; PostgreSQL dates its rows itself, here `storedAt`. */
    method Create(link: PendingLink, storedAt: int, ready: bool, threw: bool, ran: bool, now: int)
      returns (r: Option<Row>)
      requires synchronous.redis == redis && synchronous.source.db.Valid()
      requires shardOf(link.code) < |redis.shards|
      modifies redis, synchronous.source.db
      ensures synchronous.source.db.Valid()
      ensures redis.shards == old(ShardsAfter(link, ready && (!threw || ran)))
      ensures !ready || threw || old(Answer(link)) == QueueFull ==>
                var hashes := old(HashesAfter(link, ready && (!threw || ran), now));
                var row := Row(link.targetUrl, storedAt, link.expiresAt);
                if link.code in old(synchronous.source.db.rows)
                then r == None && synchronous.source.db.rows == old(synchronous.source.db.rows)
                     && redis.hashes == hashes
                else && r == Some(row)
                     && synchronous.source.db.rows == old(synchronous.source.db.rows)[link.code := row]
                     && redis.hashes == if ready then CacheLink(hashes, link.code, row, synchronous.ttlSeconds, now)
                                        else hashes
      ensures old(Answer(link)) == CodeTaken <==> link.code in old(redis.hashes)
      ensures old(Answer(link)) == Accepted
         <==> link.code !in old(redis.hashes) && |old(redis.shards[shardOf(link.code)]).queue| < maxPendingPerShard
      ensures ready && !threw && old(Answer(link)) != QueueFull ==>
                && r == (if old(Answer(link)) == Accepted
                         then Some(Row(link.targetUrl, link.createdAt, link.expiresAt)) else None)
                && synchronous.source.db.rows == old(synchronous.source.db.rows)
                && redis.hashes == old(HashesAfter(link, true, now))
      // acknowledged means queued in Redis with its pending hash, or stored in PostgreSQL
      ensures |redis.shards| == |old(redis.shards)|
      ensures r.Some? ==> Queued(link, now) || (link.code, r.value) in synchronous.source.db.rows.Items
    {
      var k := shardOf(link.code);
      var row := Row(link.targetUrl, storedAt, link.expiresAt);
      if !ready {
        r := synchronous.Create(link.code, row, ready, now);
        return;
      }
      if threw {
        if ran {
          var _ := redis.EnqueueLink(k, link, maxPendingPerShard, now);
        }
        r := synchronous.Create(link.code, row, ready, now);
        return;
      }
      var outcome := redis.EnqueueLink(k, link, maxPendingPerShard, now);
      if outcome == Accepted {
        assert link in redis.shards[k].queue by {
          assert redis.shards[k].queue[|redis.shards[k].queue| - 1] == link;
        }
        return Some(RowOf(link));
      }
      if outcome == CodeTaken {
        return None;
      }
      r := synchronous.Create(link.code, row, ready, now);
    }

    /** An alias that a queued link already holds is refused; all others, and all when Redis is not
        ready or the question `threw`, are up to PostgreSQL. */
    method CreateCustom(code: string, row: Row, ready: bool, threw: bool, now: int) returns (r: Option<Row>)
      requires synchronous.redis == redis && synchronous.source.db.Valid()
      modifies redis`hashes, synchronous.source.db
      ensures synchronous.source.db.Valid()
      ensures r == if (ready && !threw && code in old(redis.hashes) && old(redis.hashes)[code].pending)
                      || code in old(synchronous.source.db.rows) then None else Some(row)
      ensures synchronous.source.db.rows == if r.Some? then old(synchronous.source.db.rows)[code := row]
                                            else old(synchronous.source.db.rows)
      ensures redis.hashes == if r.Some? && ready
                              then CacheLink(old(redis.hashes), code, row, synchronous.ttlSeconds, now)
                              else old(redis.hashes)
    {
      if ready && !threw && code in redis.hashes && redis.hashes[code].pending {
        return None;
      }
      r := synchronous.Create(code, row, ready, now);
    }
  }
}
