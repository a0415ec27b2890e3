/** Write-behind creation as a state machine: any number of sync workers, creators and readers
    over one Redis and one PostgreSQL. Every `await` of the program separates two steps, and locks
    may expire, workers stop, calls fail and keys time out between any two of them. */
module WriteBehind {
  import opened LinkTable
  import opened PendingLinks
  import opened SyncQueue
  import opened Wrappers

  /** Where a worker stands in syncShard. */
  datatype Pc =
    | Idle
    | Locking                                                   // about to SET NX the lock
    | Peeking                                                   // about to read the queue head
    | Inserting(raw: seq<PendingLink>)                          // about to INSERT
    | Selecting(raw: seq<PendingLink>, written: set<string>)    // about to SELECT what was taken
    | Completing(raw: seq<PendingLink>, verdict: BatchResult)   // about to run COMPLETE_SYNC

  datatype Worker = Worker(pc: Pc, shard: nat, token: nat)

  /** Where a request stands in find or create. */
  datatype Client =
    | Free
    | Deleting(code: string)             // read a stale hash, about to DEL it
    | Missed(code: string)               // about to query PostgreSQL
    | Storing(code: string, row: Row)    // about to INSERT one link
    | Caching(code: string, row: Row)    // holds a link from PostgreSQL, about to cache it

  /** All that was ever pushed to a shard's queue, trimmed from it, or dead-lettered. */
  datatype History = History(pushed: seq<PendingLink>, consumed: seq<PendingLink>, dead: seq<DeadLetter>)

  datatype State = State(
    layout: string -> nat,
    now: int,
    table: Table,
    hashes: Hashes,
    shards: seq<Shard>,
    histories: seq<History>,
    workers: seq<Worker>,
    clients: seq<Client>,
    nextToken: nat)

  datatype Step =
    | Advance(ms: nat)
    | LockExpires(k: nat)
    | HashExpires(code: string)
    | Enqueue(link: PendingLink, maxPending: nat)
    | Begin(w: nat, k: nat)
    | TryLock(w: nat, lockTtlMs: nat)
    | Peek(w: nat, count: nat)
    | Insert(w: nat)
    | Select(w: nat)
    | Complete(w: nat, cacheTtlMs: nat)
    | Unlock(w: nat)             // RELEASE_LOCK, possibly of a call given up on long ago
    | Stop(w: nat)               // done, failed or crashed
    | ReadCache(c: nat, code: string)
    | DeleteStale(c: nat)
    | QueryRow(c: nat)
    | BeginStore(c: nat, code: string, row: Row, checked: bool)   // a checked one is an alias
    | Store(c: nat)
    | WriteCache(c: nat, ttlSeconds: nat)
    | GiveUp(c: nat)

  function ReadableOnes(raw: seq<PendingLink>): (r: seq<PendingLink>)
    ensures forall l :: l in r <==> l in raw && Readable(l)
  {
    if raw == [] then []
    else
      var front, last := raw[..|raw| - 1], raw[|raw| - 1];
      assert raw == front + [last];
      ReadableOnes(front) + (if Readable(last) then [last] else [])
  }

  function InvalidLetters(raw: seq<PendingLink>): (r: seq<DeadLetter>)
    ensures forall l :: DeadLetter(Invalid, l) in r <==> l in raw && !Readable(l)
  {
    if raw == [] then []
    else
      var front, last := raw[..|raw| - 1], raw[|raw| - 1];
      assert raw == front + [last];
      InvalidLetters(front) + (if Readable(last) then [] else [DeadLetter(Invalid, last)])
  }

  function ConflictLetters(links: seq<PendingLink>): (r: seq<DeadLetter>)
    ensures forall l :: DeadLetter(Conflict, l) in r <==> l in links
  {
    if links == [] then []
    else
      var front, last := links[..|links| - 1], links[|links| - 1];
      assert links == front + [last];
      ConflictLetters(front) + [DeadLetter(Conflict, last)]
  }

  function Batch(raw: seq<PendingLink>): seq<PendingLink> {
    FirstOfEach(ReadableOnes(raw))
  }

  function CompletionOf(raw: seq<PendingLink>, verdict: BatchResult, cacheTtlMs: nat): Completion {
    Completion(|raw|, verdict.persisted, Codes(verdict.conflicts),
               InvalidLetters(raw) + ConflictLetters(verdict.conflicts), cacheTtlMs)
  }

  /** The record was once accepted by ENQUEUE_LINK. */
  predicate Pushed(s: State, link: PendingLink) {
    s.layout(link.code) < |s.histories| && link in s.histories[s.layout(link.code)].pushed
  }

  ghost predicate EverQueued(s: State, code: string) {
    exists l :: Pushed(s, l) && l.code == code
  }

  predicate Expired(row: Row, now: int) {
    row.expiresAt.Some? && row.expiresAt.value <= now
  }

  ghost predicate Enabled(s: State, t: Step) {
    match t
    case Advance(ms) => true
    case LockExpires(k) => k < |s.shards| && s.shards[k].lock.Some? && s.shards[k].lock.value.deadline <= s.now
    case HashExpires(code) =>
      code in s.hashes && s.hashes[code].deadline.Some? && s.hashes[code].deadline.value <= s.now
    // generated codes are unique (see LinkCreation), and a record is created before it is sent
    case Enqueue(link, max) =>
      s.layout(link.code) < |s.shards| == |s.histories| && !EverQueued(s, link.code) && link.createdAt <= s.now
    case Begin(w, k) => w < |s.workers| && s.workers[w].pc.Idle? && k < |s.shards|
    case TryLock(w, _) => w < |s.workers| && s.workers[w].pc.Locking?
    case Peek(w, _) => w < |s.workers| && s.workers[w].pc.Peeking?
    case Insert(w) => w < |s.workers| && s.workers[w].pc.Inserting?
    case Select(w) => w < |s.workers| && s.workers[w].pc.Selecting?
    case Complete(w, _) => w < |s.workers| && s.workers[w].pc.Completing?
    case Unlock(w) => w < |s.workers| && !s.workers[w].pc.Idle?
    case Stop(w) => w < |s.workers|
    case ReadCache(c, _) => c < |s.clients| && s.clients[c].Free?
    case DeleteStale(c) => c < |s.clients| && s.clients[c].Deleting?
    case QueryRow(c) => c < |s.clients| && s.clients[c].Missed?
    case BeginStore(c, _, _, _) => c < |s.clients| && s.clients[c].Free?
    case Store(c) => c < |s.clients| && s.clients[c].Storing?
    case WriteCache(c, _) => c < |s.clients| && s.clients[c].Caching?
    case GiveUp(c) => c < |s.clients|
  }

  function At(s: State, w: nat, pc: Pc): State
    requires w < |s.workers|
  {
    s.(workers := s.workers[w := s.workers[w].(pc := pc)])
  }

  function ClientAt(s: State, c: nat, client: Client): State
    requires c < |s.clients|
  {
    s.(clients := s.clients[c := client])
  }

  /** Steps of a worker whose shard does not exist change nothing; no reachable worker has one. */
  ghost function WorkerStep(s: State, t: Step): State
    requires Enabled(s, t) && (t.TryLock? || t.Peek? || t.Complete? || t.Unlock?)
    requires s.workers[t.w].shard < |s.shards| == |s.histories|
  {
    var w, k, token := t.w, s.workers[t.w].shard, s.workers[t.w].token;
    match t
    case TryLock(_, lockTtlMs) =>
      var got := s.shards[k].lock.None?;
      At(s, w, if got then Peeking else Idle).(shards := s.shards[k := Acquire(s.shards[k], token, lockTtlMs, s.now)])
    case Peek(_, count) =>
      var raw := FirstOf(s.shards[k].queue, count);
      if raw == [] then s else At(s, w, Inserting(raw))
    case Complete(_, cacheTtlMs) =>
      if !OwnedBy(s.shards[k], token) then At(s, w, Idle)
      else
        var raw := s.workers[w].pc.raw;
        var done := CompletionOf(raw, s.workers[w].pc.verdict, cacheTtlMs);
        var h := s.histories[k];
        At(s, w, Locking).(
          hashes := FinishHashes(s.hashes, done.persisted, done.conflicts, cacheTtlMs, s.now),
          shards := s.shards[k := CompleteShard(s.shards[k], done)],
          histories := s.histories[k := h.(consumed := h.consumed + FirstOf(s.shards[k].queue, |raw|),
                                           dead := h.dead + done.deadLetters)])
    case Unlock(_) =>
      s.(shards := s.shards[k := Release(s.shards[k], token)])
  }

  ghost function Apply(s: State, t: Step): State
    requires Enabled(s, t)
  {
    match t
    case Advance(ms) => s.(now := s.now + ms)
    case LockExpires(k) => s.(shards := s.shards[k := s.shards[k].(lock := None)])
    case HashExpires(code) => s.(hashes := s.hashes - {code})
    case Enqueue(link, max) =>
      var k := s.layout(link.code);
      if EnqueueOutcome(s.hashes, s.shards[k], link.code, max) != Accepted then s
      else
        s.(hashes := s.hashes[link.code := PendingHash(link, s.now)],
           shards := s.shards[k := s.shards[k].(queue := s.shards[k].queue + [link])],
           histories := s.histories[k := s.histories[k].(pushed := s.histories[k].pushed + [link])])
    case Begin(w, k) =>
      s.(workers := s.workers[w := Worker(Locking, k, s.nextToken)], nextToken := s.nextToken + 1)
    case Insert(w) =>
      var raw := s.workers[w].pc.raw;
      At(s, w, Selecting(raw, NewCodes(s.table, Batch(raw)))).(table := InsertAbsent(s.table, Batch(raw)))
    case Select(w) =>
      var raw := s.workers[w].pc.raw;
      At(s, w, Completing(raw, Classify(s.workers[w].pc.written, s.table, Batch(raw))))
    case Stop(w) => At(s, w, Idle)
    case ReadCache(c, code) =>
      ClientAt(s, c, match ReadHash(s.hashes, code, s.now)
                     case Hit(_) => Free
                     case Miss => Missed(code)
                     case Stale => Deleting(code))
    case DeleteStale(c) =>
      ClientAt(s, c, Missed(s.clients[c].code)).(hashes := s.hashes - {s.clients[c].code})
    case QueryRow(c) =>
      var found := FindRow(s.table, s.clients[c].code, s.now);
      ClientAt(s, c, if found.Some? then Caching(s.clients[c].code, found.value) else Free)
    case BeginStore(c, code, row, checked) =>
      if checked && code in s.hashes && s.hashes[code].pending then s
      else ClientAt(s, c, Storing(code, row))
    case Store(c) =>
      var code, row := s.clients[c].code, s.clients[c].row;
      if code in s.table then ClientAt(s, c, Free)
      else ClientAt(s, c, Caching(code, row)).(table := s.table[code := row])
    case WriteCache(c, ttlSeconds) =>
      ClientAt(s, c, Free).(hashes := CacheLink(s.hashes, s.clients[c].code, s.clients[c].row, ttlSeconds, s.now))
    case GiveUp(c) => ClientAt(s, c, Free)
    case _ =>
      if s.workers[t.w].shard < |s.shards| == |s.histories| then WorkerStep(s, t) else s
  }

  /** What nobody asked for can happen at any point: time passes, a lock or a key whose time is over
      goes, a worker or a request stops wherever it is, and a release arrives of whoever holds a worker's
      token. */
  lemma FaultsHappen(s: State, ms: nat, k: nat, code: string, w: nat, c: nat)
    ensures Enabled(s, Advance(ms)) && Apply(s, Advance(ms)).now == s.now + ms
    ensures k < |s.shards| && s.shards[k].lock.Some? && s.shards[k].lock.value.deadline <= s.now
            ==> Enabled(s, LockExpires(k)) && Apply(s, LockExpires(k)).shards[k] == s.shards[k].(lock := None)
    ensures code in s.hashes && s.hashes[code].deadline.Some? && s.hashes[code].deadline.value <= s.now
            ==> Enabled(s, HashExpires(code)) && Apply(s, HashExpires(code)).hashes == s.hashes - {code}
    ensures w < |s.workers|
            ==> Enabled(s, Stop(w)) && Apply(s, Stop(w)).workers[w] == s.workers[w].(pc := Idle)
    ensures w < |s.workers| && !s.workers[w].pc.Idle? && s.workers[w].shard < |s.shards| == |s.histories|
            ==> && Enabled(s, Unlock(w))
                && var worker, t := s.workers[w], Apply(s, Unlock(w));
                   t == if OwnedBy(s.shards[worker.shard], worker.token)
                        then s.(shards := s.shards[worker.shard := s.shards[worker.shard].(lock := None)]) else s
    ensures c < |s.clients| ==> Enabled(s, GiveUp(c)) && Apply(s, GiveUp(c)).clients[c] == Free
  {
  }

  /** The state after a run; steps that cannot happen are skipped. */
  ghost function Run(s: State, steps: seq<Step>): State {
    if steps == [] then s
    else
      var before, t := Run(s, steps[..|steps| - 1]), steps[|steps| - 1];
      if Enabled(before, t) then Apply(before, t) else before
  }

  /** Redis starts empty; PostgreSQL may already hold links. */
  ghost predicate Initial(s: State) {
    && s.hashes == map[] && |s.shards| == |s.histories|
    && (forall code :: s.layout(code) < |s.shards|)
    && (forall k :: 0 <= k < |s.shards| ==> s.shards[k] == EmptyShard)
    && (forall k :: 0 <= k < |s.histories| ==> s.histories[k] == History([], [], []))
    && (forall w :: 0 <= w < |s.workers| ==> s.workers[w].pc == Idle)
    && (forall c :: 0 <= c < |s.clients| ==> s.clients[c] == Free)
  }
}
