/** The guarantees of write-behind creation, over all runs. */
module Guarantees {
  import opened LinkSafety
  import opened LinkTable
  import opened PendingLinks
  import opened QueueSafety
  import opened SyncQueue
  import opened WriteBehind
  import opened Wrappers

  // ---- what a run keeps ----

  /** Rows never change and never go, records stay pushed, and time does not run back. */
  lemma {:induction false} RunGrows(s: State, steps: seq<Step>, l: PendingLink)
    requires QueueInv(s)
    ensures QueueInv(Run(s, steps))
    ensures Grown(s.table, Run(s, steps).table) && s.now <= Run(s, steps).now
    ensures Pushed(s, l) ==> Pushed(Run(s, steps), l)
  {
    if steps != [] {
      var before, t := Run(s, steps[..|steps| - 1]), steps[|steps| - 1];
      RunGrows(s, steps[..|steps| - 1], l);
      if Enabled(before, t) {
        QueueInvKept(before, t);
        TableGrows(before, t);
        if Pushed(before, l) {
          PushedStays(before, t, l);
        }
      }
    }
  }

  // ---- durability ----

  /** At-least-once: in every run, an accepted link waits in its queue, or its target and creation
      instant are in PostgreSQL, or it was dead-lettered. */
  lemma NoAcceptedLinkIsLost(s: State, steps: seq<Step>, l: PendingLink)
    requires Initial(s) && Pushed(Run(s, steps), l)
    ensures var r, k := Run(s, steps), s.layout(l.code);
            && r.layout == s.layout && k < |r.shards| == |r.histories|
            && (|| l in r.shards[k].queue
                || (Readable(l) && l.code in r.table && r.table[l.code].targetUrl == l.targetUrl
                    && r.table[l.code].createdAt == l.createdAt)
                || DeadLetter(if Readable(l) then Conflict else Invalid, l) in r.histories[k].dead)
  {
    InvAlways(s, steps);
    LayoutFixed(s, steps);
    AcknowledgedNeverLost(Run(s, steps), l);
  }

  lemma {:induction false} LayoutFixed(s: State, steps: seq<Step>)
    ensures Run(s, steps).layout == s.layout
  {
    if steps != [] {
      LayoutFixed(s, steps[..|steps| - 1]);
    }
  }

  // ---- reads ----

  /** What find returns when it reads Redis in state `s` and, after a miss or a stale hash,
      PostgreSQL in a later state `s'`. */
  function FindAnswer(s: State, s': State, code: string): Option<Row> {
    match ReadHash(s.hashes, code, s.now)
    case Hit(row) => Some(row)
    case _ => FindRow(s'.table, code, s'.now)
  }

  /** No other link owns the code: PostgreSQL has nothing else under it. */
  predicate NoOtherOwner(s: State, l: PendingLink) {
    l.code in s.table ==> s.table[l.code] == Row(l.targetUrl, l.createdAt, l.expiresAt)
  }

  /** From its acknowledgement until it expires, a link whose code nobody else owns is found with
      its own target, however the read interleaves with sync, cache expiry and refill. */
  lemma AcknowledgedIsServed(s: State, steps: seq<Step>, more: seq<Step>, l: PendingLink)
    requires Initial(s) && Pushed(Run(s, steps), l) && l.targetUrl != ""
    requires NoOtherOwner(Run(Run(s, steps), more), l)
    requires l.expiresAt.None? || Run(Run(s, steps), more).now < l.expiresAt.value
    ensures FindAnswer(Run(s, steps), Run(Run(s, steps), more), l.code)
         == Some(Row(l.targetUrl, l.createdAt, l.expiresAt))
  {
    var r, r' := Run(s, steps), Run(Run(s, steps), more);
    InvAlways(s, steps);
    RunGrows(r, more, l);
    if l.code in r.hashes {
      assert HashOk(r, l.code);
      HashOfOwner(r, l);
    } else {
      assert l.code in r.table;
    }
  }

  /** The row is one that was accepted for its code, or PostgreSQL's. */
  ghost predicate Genuine(s: State, s': State, code: string, row: Row) {
    || (code in s'.table && s'.table[code] == row)
    || exists l :: Pushed(s, l) && l.code == code && row == Row(l.targetUrl, l.createdAt, l.expiresAt)
  }

  predicate Live(row: Row, now: int) {
    row.expiresAt.None? || now < row.expiresAt.value
  }

  /** Redis answers with a hash that has a target and is live by its clock; otherwise PostgreSQL does
      with the row of the code, if that is live by then. */
  lemma FoundExactly(s: State, s': State, code: string)
    ensures FindAnswer(s, s', code) ==
              if code in s.hashes && s.hashes[code].row.targetUrl != "" && Live(s.hashes[code].row, s.now)
              then Some(s.hashes[code].row)
              else if code in s'.table && Live(s'.table[code], s'.now) then Some(s'.table[code])
              else None
  {
    ReadExactly(s.hashes, code, s.now);
  }

  /** Whatever find returns, in every run and however its two reads are apart, was live by the clock
      of the read it came from, and is the row of its code or a link that was accepted for it. */
  lemma FoundIsLive(s: State, steps: seq<Step>, more: seq<Step>, code: string, row: Row)
    requires Initial(s) && FindAnswer(Run(s, steps), Run(Run(s, steps), more), code) == Some(row)
    ensures var r, r' := Run(s, steps), Run(Run(s, steps), more);
            && r.now <= r'.now && Live(row, r.now) && Genuine(r, r', code, row)
            && (!(code in r.hashes && r.hashes[code].row == row) ==> Live(row, r'.now))
  {
    var r, r' := Run(s, steps), Run(Run(s, steps), more);
    InvAlways(s, steps);
    TimeGrows(r, more);
    FoundExactly(r, r', code);
    if code in r.hashes {
      assert HashOk(r, code);
    }
  }

  lemma TimeGrows(s: State, steps: seq<Step>)
    requires QueueInv(s)
    ensures Grown(s.table, Run(s, steps).table) && s.now <= Run(s, steps).now
  {
    RunGrows(s, steps, PendingLink("", "", 0, None));
  }

  /** Whatever hash there is for such a code shows the link. */
  lemma HashOfOwner(s: State, l: PendingLink)
    requires Inv(s) && Pushed(s, l) && NoOtherOwner(s, l) && l.code in s.hashes
    ensures s.hashes[l.code].row == RowOf(l)
  {
    var row := s.hashes[l.code].row;
    assert HashOk(s, l.code);
    if !ShowsRow(s, l.code, row) {
      var q :| Pushed(s, q) && q.code == l.code && row == RowOf(q);
      SameCodeSameLink(s, q, l);
    }
  }

  // ---- coherence ----

  /** A row that passes the replay test for a queued record without being its row: a synchronous
      create took the code with the same target in the same millisecond, and another expiry. */
  ghost predicate HasTwin(s: State, code: string) {
    exists l :: Pushed(s, l) && l.code == code && code in s.table && s.table[code].targetUrl == l.targetUrl
                && s.table[code].createdAt == l.createdAt && s.table[code].expiresAt != l.expiresAt
  }

  /** In every run, a hash that is not pending agrees with PostgreSQL's row on target and creation
      instant; it can differ in the expiry only for a code with a twin. */
  lemma CacheAgreesWithTable(s: State, steps: seq<Step>, code: string)
    requires Initial(s) && code in Run(s, steps).hashes && !Run(s, steps).hashes[code].pending
    ensures var r := Run(s, steps);
            && code in r.table
            && r.hashes[code].row.targetUrl == r.table[code].targetUrl
            && r.hashes[code].row.createdAt == r.table[code].createdAt
            && (!HasTwin(r, code) ==> r.hashes[code].row == r.table[code])
  {
    InvAlways(s, steps);
    var r := Run(s, steps);
    assert HashOk(r, code);
    if !ShowsRow(r, code, r.hashes[code].row) {
      var l :| Pushed(r, l) && l.code == code && r.hashes[code].row == RowOf(l) && IsReplay(r.table, l);
    }
  }

  /** Completion keeps a persisted hash equal to PostgreSQL's row exactly when the hash carried
      that row's expiry before: the replay test vouches for nothing else. */
  lemma CompletionAgreesExactlyOnEqualExpiry(s: State, steps: seq<Step>, t: Step, code: string)
    requires Initial(s) && Enabled(Run(s, steps), t) && t.Complete?
    requires PendingHashAt(Run(s, steps).hashes, code)
    requires var after := Apply(Run(s, steps), t); code in after.hashes && !after.hashes[code].pending
    ensures code in Run(s, steps).table
    ensures Apply(Run(s, steps), t).hashes[code].row == Run(s, steps).table[code]
       <==> Run(s, steps).hashes[code].row.expiresAt == Run(s, steps).table[code].expiresAt
  {
    var r := Run(s, steps);
    InvAlways(s, steps);
    assert WorkerOk(r, t.w);
    CompletedHashOk(r, t, code);
    var after := Apply(r, t);
    assert after.table == r.table && after.hashes[code].row == r.hashes[code].row;
    if ShowsSynced(after, code, after.hashes[code].row) {
      var l :| Pushed(after, l) && l.code == code && after.hashes[code].row == RowOf(l) && IsReplay(after.table, l);
    }
  }

  /** Once a readable record that lost its code is out of the queue, no state serves it: Redis
      shows the owner's row or nothing. */
  lemma RejectedIsNeverServed(s: State, steps: seq<Step>, l: PendingLink)
    requires Initial(s) && Pushed(Run(s, steps), l) && Readable(l)
    requires var r := Run(s, steps);
             && r.layout(l.code) < |r.shards| && l !in r.shards[r.layout(l.code)].queue
             && !(l.code in r.table && r.table[l.code].targetUrl == l.targetUrl
                  && r.table[l.code].createdAt == l.createdAt)
    ensures var r := Run(s, steps);
            && l.code in r.table
            && (l.code in r.hashes ==> r.hashes[l.code].row == r.table[l.code])
  {
    InvAlways(s, steps);
    var r := Run(s, steps);
    var k := r.layout(l.code);
    assert ShardOk(r, k) && l in r.histories[k].consumed && ConsumedOk(r, k, l);
    if l.code in r.hashes {
      assert HashOk(r, l.code) && !r.hashes[l.code].pending;
      forall q | Pushed(r, q) && q.code == l.code
        ensures q == l
      {
        SameCodeSameLink(r, q, l);
      }
    }
  }

  // ---- twins exist ----

  /** `row` would be taken for `link` by the replay test, although it is not its row. */
  predicate Twins(link: PendingLink, row: Row) {
    && Readable(link) && row.targetUrl == link.targetUrl && row.createdAt == link.createdAt
    && row.expiresAt != link.expiresAt
  }

  /** One worker, one request, one shard, and the clock at the link's creation. */
  function TwinStart(link: PendingLink): State {
    State(code => 0, link.createdAt, map[], map[], [EmptyShard], [History([], [], [])],
          [Worker(Idle, 0, 0)], [Free], 0)
  }

  /** An alias request sees no pending hash; the same code is generated and queued; the alias is
      stored, but Redis fails before it is cached; the queue is synced. */
  function TwinSteps(link: PendingLink, row: Row): seq<Step> {
    [BeginStore(0, link.code, row, true), Enqueue(link, 1), Store(0), GiveUp(0),
     Begin(0, 0), TryLock(0, 1), Peek(0, 1), Insert(0), Select(0), Complete(0, 1)]
  }

  ghost function After(link: PendingLink, row: Row, n: nat): State
    requires n <= 10
  {
    Run(TwinStart(link), TwinSteps(link, row)[..n])
  }

  lemma AfterStep(link: PendingLink, row: Row, n: nat)
    requires n < 10 && Enabled(After(link, row, n), TwinSteps(link, row)[n])
    ensures After(link, row, n + 1) == Apply(After(link, row, n), TwinSteps(link, row)[n])
  {
    assert TwinSteps(link, row)[..n + 1][..n] == TwinSteps(link, row)[..n];
  }

  function TwinQueued(link: PendingLink): State {
    TwinStart(link).(hashes := map[link.code := PendingHash(link, link.createdAt)],
                     shards := [Shard([link], None, [])],
                     histories := [History([link], [], [])])
  }

  function TwinStored(link: PendingLink, row: Row): State {
    TwinQueued(link).(table := map[link.code := row])
  }

  function TwinWorker(link: PendingLink, row: Row, pc: Pc): State {
    TwinStored(link, row).(workers := [Worker(pc, 0, 0)], nextToken := 1,
                           shards := [Shard([link], Some(Lock(0, link.createdAt + 1)), [])])
  }

  lemma TwinIsQueued(link: PendingLink, row: Row)
    ensures After(link, row, 2) == TwinQueued(link).(clients := [Storing(link.code, row)])
  {
    var s := TwinStart(link);
    assert After(link, row, 0) == s;
    AfterStep(link, row, 0);
    assert After(link, row, 1) == s.(clients := [Storing(link.code, row)]);
    AfterStep(link, row, 1);
    assert EmptyShard.queue + [link] == [link];
    assert After(link, row, 2).shards == TwinQueued(link).shards;
    assert After(link, row, 2).histories == TwinQueued(link).histories;
    assert After(link, row, 2).hashes == TwinQueued(link).hashes;
  }

  lemma TwinIsStored(link: PendingLink, row: Row)
    ensures After(link, row, 3) == TwinStored(link, row).(clients := [Caching(link.code, row)])
  {
    TwinIsQueued(link, row);
    AfterStep(link, row, 2);
  }

  lemma TwinIsUncached(link: PendingLink, row: Row)
    ensures After(link, row, 4) == TwinStored(link, row)
  {
    TwinIsStored(link, row);
    AfterStep(link, row, 3);
  }

  lemma TwinIsBegun(link: PendingLink, row: Row)
    ensures After(link, row, 5) == TwinStored(link, row).(workers := [Worker(Locking, 0, 0)], nextToken := 1)
  {
    TwinIsUncached(link, row);
    AfterStep(link, row, 4);
  }

  lemma TwinIsLocked(link: PendingLink, row: Row)
    ensures After(link, row, 6) == TwinWorker(link, row, Peeking)
  {
    TwinIsBegun(link, row);
    AfterStep(link, row, 5);
  }

  lemma TwinIsPeeked(link: PendingLink, row: Row)
    ensures After(link, row, 7) == TwinWorker(link, row, Inserting([link]))
  {
    TwinIsLocked(link, row);
    AfterStep(link, row, 6);
  }

  lemma InsertStep(s: State, raw: seq<PendingLink>, batch: seq<PendingLink>, written: set<string>)
    requires s.workers == [Worker(Inserting(raw), 0, 0)] && Batch(raw) == batch
    requires NewCodes(s.table, batch) == written && InsertAbsent(s.table, batch) == s.table
    ensures Apply(s, Insert(0)) == s.(workers := [Worker(Selecting(raw, written), 0, 0)])
  {
  }

  lemma SelectStep(s: State, raw: seq<PendingLink>, batch: seq<PendingLink>, written: set<string>, verdict: BatchResult)
    requires s.workers == [Worker(Selecting(raw, written), 0, 0)] && Batch(raw) == batch
    requires Classify(written, s.table, batch) == verdict
    ensures Apply(s, Select(0)) == s.(workers := [Worker(Completing(raw, verdict), 0, 0)])
  {
  }

  lemma TwinIsInserted(link: PendingLink, row: Row)
    requires Twins(link, row)
    ensures After(link, row, 8) == TwinWorker(link, row, Selecting([link], {}))
  {
    TwinIsPeeked(link, row);
    AfterStep(link, row, 7);
    TwinInsert(link, row);
  }

  lemma TwinInsert(link: PendingLink, row: Row)
    requires Twins(link, row)
    ensures Apply(TwinWorker(link, row, Inserting([link])), Insert(0)) == TwinWorker(link, row, Selecting([link], {}))
  {
    var before := TwinWorker(link, row, Inserting([link]));
    TwinIsBatch(link);
    TwinIsNotInserted(link, row);
    InsertStep(before, [link], [link], {});
    TwinGoesOn(link, row, before, Inserting([link]), Selecting([link], {}));
  }

  lemma TwinGoesOn(link: PendingLink, row: Row, before: State, was: Pc, pc: Pc)
    requires before == TwinWorker(link, row, was)
    ensures before.(workers := [Worker(pc, 0, 0)]) == TwinWorker(link, row, pc)
  {
  }

  lemma TwinIsClassified(link: PendingLink, row: Row)
    requires Twins(link, row)
    ensures After(link, row, 9) == TwinWorker(link, row, Completing([link], BatchResult({link.code}, [])))
  {
    TwinIsInserted(link, row);
    TwinIsBatch(link);
    TwinIsTakenForReplay(link, row);
    var before := TwinWorker(link, row, Selecting([link], {}));
    assert TwinSteps(link, row)[8] == Select(0) && Enabled(before, Select(0));
    AfterStep(link, row, 8);
    SelectStep(before, [link], [link], {}, BatchResult({link.code}, []));
  }

  lemma TwinIsBatch(link: PendingLink)
    requires Readable(link)
    ensures Batch([link]) == [link]
  {
    assert [link][..0] == [];
    assert ReadableOnes([link]) == [link];
    assert FirstOfEach([link]) == [link];
  }

  lemma TwinIsNotInserted(link: PendingLink, row: Row)
    ensures NewCodes(map[link.code := row], [link]) == {}
    ensures InsertAbsent(map[link.code := row], [link]) == map[link.code := row]
  {
    var table: Table := map[link.code := row];
    assert [] + [link] == [link];
    NewCodesSnoc(table, [], link);
    InsertAbsentSnoc(table, [], link);
  }

  lemma TwinIsTakenForReplay(link: PendingLink, row: Row)
    requires Matches(row, link)
    ensures Classify({}, map[link.code := row], [link]) == BatchResult({link.code}, [])
  {
    assert [] + [link] == [link];
    assert IsReplay(map[link.code := row], link);
    ReplayedSnoc({}, map[link.code := row], [], link);
  }

  /** Every pair of twins can end up with a settled hash that differs from PostgreSQL's row. */
  lemma TwinsCanDisagree(link: PendingLink, row: Row)
    requires Twins(link, row)
    ensures Initial(TwinStart(link))
    ensures var r := Run(TwinStart(link), TwinSteps(link, row));
            && link.code in r.hashes && !r.hashes[link.code].pending
            && r.hashes[link.code].row == Row(link.targetUrl, link.createdAt, link.expiresAt)
            && link.code in r.table && r.table[link.code] == row
  {
    TwinIsClassified(link, row);
    AfterStep(link, row, 9);
    assert TwinSteps(link, row)[..10] == TwinSteps(link, row);
  }
}
