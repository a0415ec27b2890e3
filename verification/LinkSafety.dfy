/** What every run of the write-behind protocol keeps about links: in the table, in the hashes,
    and in the hands of requests. */
module LinkSafety {
  import opened LinkTable
  import opened PendingLinks
  import opened QueueSafety
  import opened SyncQueue
  import opened WriteBehind
  import opened Wrappers

  // ---- what only grows ----

  lemma TableGrows(s: State, t: Step)
    requires Enabled(s, t)
    ensures Grown(s.table, Apply(s, t).table)
  {
  }

  lemma PushedStays(s: State, t: Step, l: PendingLink)
    requires QueueInv(s) && Enabled(s, t) && Pushed(s, l)
    ensures Pushed(Apply(s, t), l)
  {
  }

  lemma SameCodeSameLink(s: State, a: PendingLink, b: PendingLink)
    requires QueueInv(s) && Pushed(s, a) && Pushed(s, b) && a.code == b.code
    ensures a == b
  {
    assert ShardOk(s, s.layout(a.code));
  }

  // ---- verdicts of the workers ----

  /** The verdict says, per record of the batch, whether the table holds it. */
  ghost predicate VerdictOk(table: Table, batch: seq<PendingLink>, verdict: BatchResult) {
    && (forall l :: l in batch ==>
          && l.code in table
          && (l.code in verdict.persisted <==> Matches(table[l.code], l))
          && (l in verdict.conflicts <==> !Matches(table[l.code], l)))
    && verdict.persisted <= Codes(batch)
    && (forall l :: l in verdict.conflicts ==> l in batch)
  }

  ghost predicate InsertedBefore(table: Table, batch: seq<PendingLink>, written: set<string>) {
    exists t :: written == NewCodes(t, batch) && Grown(InsertAbsent(t, batch), table)
  }

  ghost predicate VerdictsInv(s: State) {
    forall w :: 0 <= w < |s.workers| ==> WorkerVerdictOk(s.table, s.workers[w].pc)
  }

  lemma GrownVerdict(t: Table, u: Table, batch: seq<PendingLink>)
    requires Grown(t, u)
    ensures forall written :: InsertedBefore(t, batch, written) ==> InsertedBefore(u, batch, written)
    ensures forall verdict :: VerdictOk(t, batch, verdict) ==> VerdictOk(u, batch, verdict)
  {
    forall written | InsertedBefore(t, batch, written)
      ensures InsertedBefore(u, batch, written)
    {
      var base :| written == NewCodes(base, batch) && Grown(InsertAbsent(base, batch), t);
      assert Grown(InsertAbsent(base, batch), u);
    }
  }

  /** The two statements of a batch agree on a sound verdict, whatever came between them. */
  lemma VerdictIsSound(table: Table, batch: seq<PendingLink>, written: set<string>)
    requires InsertedBefore(table, batch, written) && DistinctCodes(batch)
    ensures VerdictOk(table, batch, Classify(written, table, batch))
  {
    var t :| written == NewCodes(t, batch) && Grown(InsertAbsent(t, batch), table);
    forall l | l in batch
      ensures l.code in table
      ensures l.code in Classify(written, table, batch).persisted <==> Matches(table[l.code], l)
      ensures l in Classify(written, table, batch).conflicts <==> !Matches(table[l.code], l)
    {
      ClassifyMeans(t, table, batch, l);
    }
  }

  ghost predicate WorkerVerdictOk(table: Table, pc: Pc) {
    match pc
    case Selecting(raw, written) => InsertedBefore(table, Batch(raw), written)
    case Completing(raw, verdict) => VerdictOk(table, Batch(raw), verdict)
    case _ => true
  }

  lemma WorkerVerdictStays(t: Table, u: Table, pc: Pc)
    requires WorkerVerdictOk(t, pc) && Grown(t, u)
    ensures WorkerVerdictOk(u, pc)
  {
    if HasRaw(pc) {
      GrownVerdict(t, u, Batch(pc.raw));
    }
  }

  lemma InsertVerdictOk(s: State, t: Step)
    requires Enabled(s, t) && t.Insert?
    ensures WorkerVerdictOk(Apply(s, t).table, Apply(s, t).workers[t.w].pc)
  {
    var batch := Batch(s.workers[t.w].pc.raw);
    assert Grown(InsertAbsent(s.table, batch), Apply(s, t).table);
  }

  lemma SelectVerdictOk(s: State, t: Step)
    requires VerdictsInv(s) && Enabled(s, t) && t.Select?
    ensures WorkerVerdictOk(Apply(s, t).table, Apply(s, t).workers[t.w].pc)
  {
    VerdictIsSound(s.table, Batch(s.workers[t.w].pc.raw), s.workers[t.w].pc.written);
  }

  /** No other step brings a worker to a verdict. */
  lemma OtherVerdicts(s: State, t: Step, w: nat)
    requires Enabled(s, t) && w < |Apply(s, t).workers|
    ensures |Apply(s, t).workers| == |s.workers|
    ensures Apply(s, t).workers[w].pc == s.workers[w].pc || (t.Insert? && t.w == w) || (t.Select? && t.w == w)
         || !(Apply(s, t).workers[w].pc.Selecting? || Apply(s, t).workers[w].pc.Completing?)
  {
  }

  lemma VerdictsKept(s: State, t: Step)
    requires VerdictsInv(s) && Enabled(s, t)
    ensures VerdictsInv(Apply(s, t))
  {
    TableGrows(s, t);
    forall w | 0 <= w < |Apply(s, t).workers|
      ensures WorkerVerdictOk(Apply(s, t).table, Apply(s, t).workers[w].pc)
    {
      OtherVerdicts(s, t, w);
      if Apply(s, t).workers[w].pc == s.workers[w].pc {
        WorkerVerdictStays(s.table, Apply(s, t).table, s.workers[w].pc);
      } else if t.Insert? {
        InsertVerdictOk(s, t);
      } else if t.Select? {
        SelectVerdictOk(s, t);
      }
    }
  }

  // ---- consumed records ----

  predicate PendingHashAt(hashes: Hashes, code: string) {
    code in hashes && hashes[code].pending
  }

  /** A consumed record is in the table as itself or among the dead letters, and no hash of it is
      pending any more. */
  predicate ConsumedOk(s: State, k: nat, l: PendingLink)
    requires k < |s.histories|
  {
    if Readable(l) then
      && l.code in s.table
      && (Matches(s.table[l.code], l) || DeadLetter(Conflict, l) in s.histories[k].dead)
      && !PendingHashAt(s.hashes, l.code)
    else DeadLetter(Invalid, l) in s.histories[k].dead
  }

  ghost predicate ConsumedInv(s: State) {
    forall k, l :: 0 <= k < |s.histories| && l in s.histories[k].consumed ==> ConsumedOk(s, k, l)
  }

  lemma {:induction false} ReadableDistinct(raw: seq<PendingLink>)
    requires DistinctCodes(raw)
    ensures DistinctCodes(ReadableOnes(raw))
  {
    if raw != [] {
      var front, last := raw[..|raw| - 1], raw[|raw| - 1];
      ReadableDistinct(front);
      var r := ReadableOnes(front);
      assert forall i :: 0 <= i < |r| ==> r[i] in r;
      assert forall l :: l in front ==> l.code != last.code;
    }
  }

  /** With unique codes the batch leaves no readable record out. */
  lemma BatchIsComplete(s: State, w: nat)
    requires QueueInv(s) && w < |s.workers| && HasRaw(s.workers[w].pc)
    requires s.workers[w].shard < |s.shards| && OwnedBy(s.shards[s.workers[w].shard], s.workers[w].token)
    ensures forall l :: l in s.workers[w].pc.raw && Readable(l) ==> l in Batch(s.workers[w].pc.raw)
  {
    var raw, k := s.workers[w].pc.raw, s.workers[w].shard;
    OwnerTrimsItsOwnBatch(s, w);
    assert ShardOk(s, k);
    var h := s.histories[k];
    assert forall i :: 0 <= i < |raw| ==> raw[i] == h.pushed[|h.consumed| + i];
    ReadableDistinct(raw);
    DistinctNothingDropped(ReadableOnes(raw));
  }

  /** Completion leaves the verdict of each readable record of the batch behind. */
  lemma BatchConsumedOk(s: State, t: Step, l: PendingLink)
    requires QueueInv(s) && VerdictsInv(s) && Enabled(s, t) && t.Complete?
    requires s.workers[t.w].shard < |s.shards| && OwnedBy(s.shards[s.workers[t.w].shard], s.workers[t.w].token)
    requires l in s.workers[t.w].pc.raw
    ensures ConsumedOk(Apply(s, t), s.workers[t.w].shard, l)
  {
    BatchIsComplete(s, t.w);
    var raw, verdict := s.workers[t.w].pc.raw, s.workers[t.w].pc.verdict;
    assert VerdictOk(s.table, Batch(raw), verdict);
    assert Readable(l) ==> l in Batch(raw);
    assert l in verdict.conflicts ==> l.code in Codes(verdict.conflicts);
  }

  lemma OlderConsumedOk(s: State, t: Step, k: nat, l: PendingLink)
    requires QueueInv(s) && ConsumedInv(s) && Enabled(s, t) && t.Complete?
    requires k < |s.histories| && l in s.histories[k].consumed
    ensures ConsumedOk(Apply(s, t), k, l)
  {
    assert WorkerOk(s, t.w) && ConsumedOk(s, k, l);
  }

  lemma CompleteConsumedOk(s: State, t: Step, k: nat, l: PendingLink)
    requires QueueInv(s) && VerdictsInv(s) && ConsumedInv(s) && Enabled(s, t) && t.Complete?
    requires k < |Apply(s, t).histories| && l in Apply(s, t).histories[k].consumed
    ensures ConsumedOk(Apply(s, t), k, l)
  {
    assert WorkerOk(s, t.w);
    if l in s.histories[k].consumed {
      OlderConsumedOk(s, t, k, l);
    } else {
      OwnerTrimsItsOwnBatch(s, t.w);
      BatchConsumedOk(s, t, l);
    }
  }

  lemma ConsumedKept(s: State, t: Step)
    requires QueueInv(s) && VerdictsInv(s) && ConsumedInv(s) && Enabled(s, t)
    ensures ConsumedInv(Apply(s, t))
  {
    var s' := Apply(s, t);
    forall k, l | 0 <= k < |s'.histories| && l in s'.histories[k].consumed
      ensures ConsumedOk(s', k, l)
    {
      if t.Complete? {
        CompleteConsumedOk(s, t, k, l);
      } else {
        ConsumedStays(s, t, k, l);
      }
    }
  }

  lemma ConsumedStays(s: State, t: Step, k: nat, l: PendingLink)
    requires QueueInv(s) && ConsumedInv(s) && Enabled(s, t) && !t.Complete?
    requires k < |Apply(s, t).histories| && l in Apply(s, t).histories[k].consumed
    ensures ConsumedOk(Apply(s, t), k, l)
  {
    TableGrows(s, t);
    assert l in s.histories[k].consumed && ConsumedOk(s, k, l);
    if t.Enqueue? {
      assert ShardOk(s, k) && l in s.histories[k].pushed;
      assert Pushed(s, l);
    }
  }

  /** No acknowledged link is lost: in every reachable state it waits in its shard's queue, or
      PostgreSQL holds its target and creation instant, or it was dead-lettered. */
  lemma AcknowledgedNeverLost(s: State, l: PendingLink)
    requires QueueInv(s) && ConsumedInv(s) && Pushed(s, l)
    ensures var k := s.layout(l.code);
            && k < |s.shards| == |s.histories|
            && (|| l in s.shards[k].queue
                || (Readable(l) && IsReplay(s.table, l))
                || DeadLetter(if Readable(l) then Conflict else Invalid, l) in s.histories[k].dead)
  {
    var k := s.layout(l.code);
    assert ShardOk(s, k);
    if l !in s.shards[k].queue {
      assert l in s.histories[k].consumed && ConsumedOk(s, k, l);
    }
  }

  // ---- link hashes ----

  /** The hash shows the record of its code that was queued. */
  ghost predicate ShowsQueued(s: State, code: string, row: Row) {
    exists l :: Pushed(s, l) && l.code == code && row == RowOf(l)
  }

  /** The hash shows a queued record that the table holds up to the expiry. */
  ghost predicate ShowsSynced(s: State, code: string, row: Row) {
    exists l :: Pushed(s, l) && l.code == code && row == RowOf(l) && IsReplay(s.table, l)
  }

  predicate ShowsRow(s: State, code: string, row: Row) {
    code in s.table && s.table[code] == row
  }

  /** A pending hash belongs to a queued record and shows it or the table's row; any other hash
      shows the table's row, or a queued record that the table holds up to the expiry. */
  ghost predicate HashOk(s: State, code: string)
    requires code in s.hashes
  {
    var h := s.hashes[code];
    if h.pending then EverQueued(s, code) && (ShowsQueued(s, code, h.row) || ShowsRow(s, code, h.row))
    else ShowsRow(s, code, h.row) || ShowsSynced(s, code, h.row)
  }

  /** The queued record of this code has expired, or never had a target. */
  ghost predicate QueuedButGone(s: State, code: string) {
    exists l :: Pushed(s, l) && l.code == code && (l.targetUrl == "" || Expired(RowOf(l), s.now))
  }

  /** A request about to cache holds the table's row; one about to delete does no harm. */
  ghost predicate ClientOk(s: State, client: Client) {
    match client
    case Caching(code, row) => ShowsRow(s, code, row)
    case Deleting(code) => code in s.table || QueuedButGone(s, code)
    case _ => true
  }

  ghost predicate HashInv(s: State) {
    && (forall code :: code in s.hashes ==> HashOk(s, code))
    && (forall c :: 0 <= c < |s.clients| ==> ClientOk(s, s.clients[c]))
  }

  /** What was true of a row or a request stays true while the table, the history and the clock
      move forward. */
  lemma ShownStays(s: State, t: Step, code: string, row: Row)
    requires QueueInv(s) && Enabled(s, t)
    ensures ShowsQueued(s, code, row) ==> ShowsQueued(Apply(s, t), code, row)
    ensures ShowsSynced(s, code, row) ==> ShowsSynced(Apply(s, t), code, row)
    ensures ShowsRow(s, code, row) ==> ShowsRow(Apply(s, t), code, row)
  {
    TableGrows(s, t);
    if ShowsQueued(s, code, row) {
      var l :| Pushed(s, l) && l.code == code && row == RowOf(l);
      PushedStays(s, t, l);
    }
    if ShowsSynced(s, code, row) {
      var l :| Pushed(s, l) && l.code == code && row == RowOf(l) && IsReplay(s.table, l);
      PushedStays(s, t, l);
      assert IsReplay(Apply(s, t).table, l);
    }
  }

  lemma QueuedStays(s: State, t: Step, code: string)
    requires QueueInv(s) && Enabled(s, t)
    ensures EverQueued(s, code) ==> EverQueued(Apply(s, t), code)
    ensures QueuedButGone(s, code) ==> QueuedButGone(Apply(s, t), code)
  {
    if EverQueued(s, code) {
      var l :| Pushed(s, l) && l.code == code;
      PushedStays(s, t, l);
    }
    if QueuedButGone(s, code) {
      var l :| Pushed(s, l) && l.code == code && (l.targetUrl == "" || Expired(RowOf(l), s.now));
      PushedStays(s, t, l);
      ClockAdvances(s, t);
      assert l.targetUrl == "" || Expired(RowOf(l), Apply(s, t).now);
    }
  }

  lemma ClockAdvances(s: State, t: Step)
    requires Enabled(s, t)
    ensures s.now <= Apply(s, t).now
  {
  }

  lemma ClientsKept(s: State, t: Step)
    requires QueueInv(s) && HashInv(s) && Enabled(s, t)
    ensures forall c :: 0 <= c < |Apply(s, t).clients| ==> ClientOk(Apply(s, t), Apply(s, t).clients[c])
  {
    var s' := Apply(s, t);
    forall c | 0 <= c < |s'.clients|
      ensures ClientOk(s', s'.clients[c])
    {
      ClientKept(s, t, c);
    }
  }

  lemma ClientKept(s: State, t: Step, c: nat)
    requires QueueInv(s) && HashInv(s) && Enabled(s, t) && c < |Apply(s, t).clients|
    ensures ClientOk(Apply(s, t), Apply(s, t).clients[c])
  {
    TableGrows(s, t);
    var client := Apply(s, t).clients[c];
    if client == s.clients[c] {
      assert ClientOk(s, client);
      if client.Deleting? {
        QueuedStays(s, t, client.code);
      }
    } else if t.ReadCache? && client.Deleting? {
      StaleIsHarmless(s, client.code);
    }
  }

  lemma StaleIsHarmless(s: State, code: string)
    requires HashInv(s) && ReadHash(s.hashes, code, s.now).Stale?
    ensures code in s.table || QueuedButGone(s, code)
  {
    assert HashOk(s, code);
    var h := s.hashes[code];
    if h.pending && ShowsQueued(s, code, h.row) {
      var l :| Pushed(s, l) && l.code == code && h.row == RowOf(l);
    }
  }

  lemma HashesKept(s: State, t: Step)
    requires QueueInv(s) && VerdictsInv(s) && HashInv(s) && Enabled(s, t)
    ensures HashInv(Apply(s, t))
  {
    var s' := Apply(s, t);
    ClientsKept(s, t);
    forall code | code in s'.hashes
      ensures HashOk(s', code)
    {
      HashKept(s, t, code);
    }
  }

  lemma HashKept(s: State, t: Step, code: string)
    requires QueueInv(s) && VerdictsInv(s) && HashInv(s) && Enabled(s, t) && code in Apply(s, t).hashes
    ensures HashOk(Apply(s, t), code)
  {
    var s' := Apply(s, t);
    if code in s.hashes && s'.hashes[code] == s.hashes[code] {
      SameHashOk(s, t, code);
    } else if t.Enqueue? {
      QueuedHashOk(s, t, code);
    } else {
      HashChanges(s, t, code);
      if t.WriteCache? {
        CachedHashOk(s, t, code);
      } else {
        CompletedHashOk(s, t, code);
      }
    }
  }

  /** Only a queued record, a cached link or a completion changes a hash. */
  lemma HashChanges(s: State, t: Step, code: string)
    requires Enabled(s, t) && code in Apply(s, t).hashes && !t.Enqueue?
    requires !(code in s.hashes && Apply(s, t).hashes[code] == s.hashes[code])
    ensures t.WriteCache? || (t.Complete? && code in s.hashes)
  {
  }

  lemma QueuedHashOk(s: State, t: Step, code: string)
    requires Enabled(s, t) && t.Enqueue? && code in Apply(s, t).hashes
    requires !(code in s.hashes && Apply(s, t).hashes[code] == s.hashes[code])
    ensures HashOk(Apply(s, t), code)
  {
    assert Apply(s, t).hashes[code] == PendingHash(t.link, s.now) && Pushed(Apply(s, t), t.link);
  }

  lemma SameHashOk(s: State, t: Step, code: string)
    requires QueueInv(s) && HashInv(s) && Enabled(s, t)
    requires code in s.hashes && code in Apply(s, t).hashes && Apply(s, t).hashes[code] == s.hashes[code]
    ensures HashOk(Apply(s, t), code)
  {
    assert HashOk(s, code);
    ShownStays(s, t, code, s.hashes[code].row);
    QueuedStays(s, t, code);
  }

  lemma CachedHashOk(s: State, t: Step, code: string)
    requires QueueInv(s) && HashInv(s) && Enabled(s, t) && t.WriteCache?
    requires code in Apply(s, t).hashes && !(code in s.hashes && Apply(s, t).hashes[code] == s.hashes[code])
    ensures HashOk(Apply(s, t), code)
  {
    assert ClientOk(s, s.clients[t.c]);
    if code in s.hashes {
      assert HashOk(s, code);
      QueuedStays(s, t, code);
    }
  }

  lemma CompletedHashOk(s: State, t: Step, code: string)
    requires QueueInv(s) && VerdictsInv(s) && HashInv(s) && Enabled(s, t) && t.Complete?
    requires code in s.hashes && code in Apply(s, t).hashes && Apply(s, t).hashes[code] != s.hashes[code]
    ensures HashOk(Apply(s, t), code)
  {
    var s', worker := Apply(s, t), s.workers[t.w];
    assert WorkerOk(s, t.w) && HashOk(s, code);
    var verdict, batch := worker.pc.verdict, Batch(worker.pc.raw);
    assert code in verdict.persisted && s.hashes[code].pending && VerdictOk(s.table, batch, verdict);
    var l :| l in batch && l.code == code;
    assert l in worker.pc.raw && ShardOk(s, worker.shard) && Pushed(s, l);
    assert IsReplay(s.table, l);
    var row := s.hashes[code].row;
    ShownStays(s, t, code, row);
    QueuedStays(s, t, code);
    if !ShowsRow(s, code, row) {
      var q :| Pushed(s, q) && q.code == code && row == RowOf(q);
      SameCodeSameLink(s, q, l);
      assert ShowsSynced(s, code, row);
    }
  }

  // ---- availability ----

  /** The hash of a record that PostgreSQL does not have yet: whole, pending, and kept by Redis
      for as long as the link lives. */
  predicate ServedFromRedis(s: State, l: PendingLink) {
    && PendingHashAt(s.hashes, l.code)
    && s.hashes[l.code].row == RowOf(l)
    && (s.hashes[l.code].deadline.None? <==> l.expiresAt.None?)
    && (l.expiresAt.Some? ==> s.hashes[l.code].deadline.value >= l.expiresAt.value)
  }

  ghost predicate ServedInv(s: State) {
    forall l :: Pushed(s, l) && l.targetUrl != "" ==> Served(s, l)
  }

  predicate Served(s: State, l: PendingLink) {
    l.code in s.table || Expired(RowOf(l), s.now) || ServedFromRedis(s, l)
  }

  lemma ServedKept(s: State, t: Step)
    requires QueueInv(s) && VerdictsInv(s) && HashInv(s) && ServedInv(s) && Enabled(s, t)
    ensures ServedInv(Apply(s, t))
  {
    forall l | Pushed(Apply(s, t), l) && l.targetUrl != ""
      ensures Served(Apply(s, t), l)
    {
      if Pushed(s, l) {
        StillServed(s, t, l);
      } else {
        NewlyServed(s, t, l);
      }
    }
  }

  lemma NewlyServed(s: State, t: Step, l: PendingLink)
    requires QueueInv(s) && Enabled(s, t) && !Pushed(s, l) && Pushed(Apply(s, t), l)
    ensures Served(Apply(s, t), l)
  {
    assert t.Enqueue? && l == t.link;
  }

  lemma StillServed(s: State, t: Step, l: PendingLink)
    requires QueueInv(s) && VerdictsInv(s) && HashInv(s) && Enabled(s, t)
    requires Pushed(s, l) && l.targetUrl != "" && Served(s, l)
    ensures Served(Apply(s, t), l)
  {
    TableGrows(s, t);
    ClockAdvances(s, t);
    if l.code !in s.table && !Expired(RowOf(l), s.now) {
      assert !(t.HashExpires? && t.code == l.code);
      HashStays(s, t, l);
    }
  }

  lemma HashStays(s: State, t: Step, l: PendingLink)
    requires QueueInv(s) && VerdictsInv(s) && HashInv(s) && Enabled(s, t)
    requires Pushed(s, l) && l.targetUrl != "" && l.code !in s.table && !Expired(RowOf(l), s.now)
    requires l.code in s.hashes && !(t.HashExpires? && t.code == l.code)
    ensures l.code in Apply(s, t).hashes && Apply(s, t).hashes[l.code] == s.hashes[l.code]
  {
    if t.Complete? {
      CompletionSpares(s, t, l.code);
    } else if t.DeleteStale? {
      DeletionSpares(s, t, l);
    } else if t.WriteCache? {
      assert ClientOk(s, s.clients[t.c]);
    } else if t.Enqueue? {
      assert t.link.code != l.code;
    } else {
      OtherHashesSame(s, t, l.code);
    }
  }

  lemma OtherHashesSame(s: State, t: Step, code: string)
    requires Enabled(s, t) && !t.Complete? && !t.DeleteStale? && !t.WriteCache? && !t.Enqueue?
    requires code in s.hashes && !(t.HashExpires? && t.code == code)
    ensures code in Apply(s, t).hashes && Apply(s, t).hashes[code] == s.hashes[code]
  {
  }

  /** A late DEL of a stale hash cannot hit the hash of a living link. */
  lemma DeletionSpares(s: State, t: Step, l: PendingLink)
    requires QueueInv(s) && HashInv(s) && Enabled(s, t) && t.DeleteStale?
    requires Pushed(s, l) && l.targetUrl != "" && l.code !in s.table && !Expired(RowOf(l), s.now)
    ensures s.clients[t.c].code != l.code
  {
    assert ClientOk(s, s.clients[t.c]);
    if s.clients[t.c].code == l.code {
      var q :| Pushed(s, q) && q.code == l.code && (q.targetUrl == "" || Expired(RowOf(q), s.now));
      SameCodeSameLink(s, q, l);
    }
  }

  /** Completion leaves the hash of a code alone that PostgreSQL does not hold. */
  lemma CompletionSpares(s: State, t: Step, code: string)
    requires QueueInv(s) && VerdictsInv(s) && Enabled(s, t) && t.Complete?
    requires code !in s.table && code in s.hashes
    ensures code in Apply(s, t).hashes && Apply(s, t).hashes[code] == s.hashes[code]
  {
    assert WorkerOk(s, t.w);
    var verdict, batch := s.workers[t.w].pc.verdict, Batch(s.workers[t.w].pc.raw);
    assert VerdictOk(s.table, batch, verdict);
    assert code !in Codes(batch);
    assert code !in verdict.persisted && code !in Codes(verdict.conflicts);
  }

  // ---- all together ----

  ghost predicate Inv(s: State) {
    QueueInv(s) && VerdictsInv(s) && ConsumedInv(s) && HashInv(s) && ServedInv(s)
  }

  lemma {:induction false} InvAlways(s: State, steps: seq<Step>)
    requires Initial(s)
    ensures Inv(Run(s, steps))
  {
    if steps != [] {
      var before, t := Run(s, steps[..|steps| - 1]), steps[|steps| - 1];
      InvAlways(s, steps[..|steps| - 1]);
      if Enabled(before, t) {
        QueueInvKept(before, t);
        VerdictsKept(before, t);
        ConsumedKept(before, t);
        HashesKept(before, t);
        ServedKept(before, t);
      }
    }
  }
}
