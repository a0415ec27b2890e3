/** What every run of the write-behind protocol keeps about queues, locks and workers. */
module QueueSafety {
  import opened LinkTable
  import opened PendingLinks
  import opened SyncQueue
  import opened WriteBehind
  import opened Wrappers

  predicate HasRaw(pc: Pc) {
    pc.Inserting? || pc.Selecting? || pc.Completing?
  }

  /** A shard's queue is what was pushed and not yet consumed; its codes are its own and occur
      once; the kept dead letters are the last ones. */
  ghost predicate ShardOk(s: State, k: nat)
    requires k < |s.shards| == |s.histories|
  {
    var shard, h := s.shards[k], s.histories[k];
    && h.pushed == h.consumed + shard.queue
    && DistinctCodes(h.pushed)
    && (forall l :: l in h.pushed ==> s.layout(l.code) == k)
    && shard.dead == LastOf(h.dead, DEAD_LETTER_CAP)
    && (shard.lock.Some? ==> shard.lock.value.token < s.nextToken)
  }

  /** A worker's batch is still the head of the queue for as long as the lock holds the worker's
      token, which it has done since before the batch was read. */
  ghost predicate WorkerOk(s: State, w: nat)
    requires w < |s.workers| && |s.shards| == |s.histories|
  {
    var worker := s.workers[w];
    !worker.pc.Idle? ==>
      && worker.shard < |s.shards|
      && worker.token < s.nextToken
      && (HasRaw(worker.pc) ==>
            && (forall l :: l in worker.pc.raw ==> l in s.histories[worker.shard].pushed)
            && (OwnedBy(s.shards[worker.shard], worker.token) ==> worker.pc.raw <= s.shards[worker.shard].queue))
  }

  ghost predicate QueueInv(s: State) {
    && |s.shards| == |s.histories|
    && (forall code :: s.layout(code) < |s.shards|)
    && (forall k :: 0 <= k < |s.shards| ==> ShardOk(s, k))
    && (forall w :: 0 <= w < |s.workers| ==> WorkerOk(s, w))
    && (forall v, w :: 0 <= v < w < |s.workers| && !s.workers[v].pc.Idle? && !s.workers[w].pc.Idle? ==>
          s.workers[v].token != s.workers[w].token)
  }

  lemma QueueInvInitially(s: State)
    requires Initial(s)
    ensures QueueInv(s)
  {
  }

  lemma EnqueueKept(s: State, t: Step)
    requires QueueInv(s) && Enabled(s, t) && t.Enqueue?
    ensures QueueInv(Apply(s, t))
  {
    var s', k, link := Apply(s, t), s.layout(t.link.code), t.link;
    if s' != s {
      var h := s.histories[k];
      assert ShardOk(s, k);
      forall l | l in h.pushed
        ensures l.code != link.code
      {
        assert Pushed(s, l);
      }
      assert forall i :: 0 <= i < |h.pushed| ==> h.pushed[i] in h.pushed;
      assert h.pushed + [link] == h.consumed + (s.shards[k].queue + [link]);
      forall j | 0 <= j < |s'.shards|
        ensures ShardOk(s', j)
      {
        assert ShardOk(s, j);
      }
      forall w | 0 <= w < |s'.workers|
        ensures WorkerOk(s', w)
      {
        assert WorkerOk(s, w);
      }
    }
  }

  lemma TryLockKept(s: State, t: Step)
    requires QueueInv(s) && Enabled(s, t) && t.TryLock?
    ensures QueueInv(Apply(s, t))
  {
    var s' := Apply(s, t);
    assert WorkerOk(s, t.w);
    forall j | 0 <= j < |s'.shards|
      ensures ShardOk(s', j)
    {
      assert ShardOk(s, j);
    }
    forall w | 0 <= w < |s'.workers|
      ensures WorkerOk(s', w)
    {
      assert WorkerOk(s, w);
    }
  }

  /** While the token is in the lock, the worker that is about to complete read exactly the
      entries it is about to trim: nobody trimmed the queue since. */
  lemma OwnerTrimsItsOwnBatch(s: State, w: nat)
    requires QueueInv(s) && w < |s.workers| && HasRaw(s.workers[w].pc)
    requires s.workers[w].shard < |s.shards| && OwnedBy(s.shards[s.workers[w].shard], s.workers[w].token)
    ensures var queue, raw := s.shards[s.workers[w].shard].queue, s.workers[w].pc.raw;
            FirstOf(queue, |raw|) == raw && queue == raw + Drop(queue, |raw|)
  {
    assert WorkerOk(s, w);
  }

  /** Trimming a prefix that was read moves it from the queue to the consumed history. */
  lemma TrimmedShardOk(h: History, shard: Shard, raw: seq<PendingLink>, letters: seq<DeadLetter>)
    requires h.pushed == h.consumed + shard.queue && shard.dead == LastOf(h.dead, DEAD_LETTER_CAP)
    requires FirstOf(shard.queue, |raw|) == raw && shard.queue == raw + Drop(shard.queue, |raw|)
    ensures h.pushed == (h.consumed + raw) + Drop(shard.queue, |raw|)
    ensures (if letters == [] then shard.dead else LastOf(shard.dead + letters, DEAD_LETTER_CAP))
         == LastOf(h.dead + letters, DEAD_LETTER_CAP)
  {
    assert h.consumed + (raw + Drop(shard.queue, |raw|)) == (h.consumed + raw) + Drop(shard.queue, |raw|);
    LastOfLast(h.dead, letters, DEAD_LETTER_CAP);
    assert letters == [] ==> h.dead + letters == h.dead;
  }

  lemma CompletedShardOk(s: State, t: Step)
    requires QueueInv(s) && Enabled(s, t) && t.Complete?
    ensures s.workers[t.w].shard < |Apply(s, t).shards| == |Apply(s, t).histories|
    ensures ShardOk(Apply(s, t), s.workers[t.w].shard)
  {
    var s', k, worker := Apply(s, t), s.workers[t.w].shard, s.workers[t.w];
    assert WorkerOk(s, t.w);
    assert ShardOk(s, k);
    if OwnedBy(s.shards[k], worker.token) {
      OwnerTrimsItsOwnBatch(s, t.w);
      var letters := CompletionOf(worker.pc.raw, worker.pc.verdict, t.cacheTtlMs).deadLetters;
      TrimmedShardOk(s.histories[k], s.shards[k], worker.pc.raw, letters);
      assert s'.histories[k] == s.histories[k].(consumed := s.histories[k].consumed + worker.pc.raw,
                                                dead := s.histories[k].dead + letters);
    }
  }

  lemma CompleteKept(s: State, t: Step)
    requires QueueInv(s) && Enabled(s, t) && t.Complete?
    ensures QueueInv(Apply(s, t))
  {
    var s', k := Apply(s, t), s.workers[t.w].shard;
    CompletedShardOk(s, t);
    CompletedWorkersOk(s, t);
    forall j | 0 <= j < |s'.shards| && j != k
      ensures ShardOk(s', j)
    {
      assert ShardOk(s, j);
    }
  }

  lemma CompletedWorkersOk(s: State, t: Step)
    requires QueueInv(s) && Enabled(s, t) && t.Complete?
    ensures |Apply(s, t).shards| == |Apply(s, t).histories|
    ensures forall w :: 0 <= w < |Apply(s, t).workers| ==> WorkerOk(Apply(s, t), w)
  {
    var s' := Apply(s, t);
    assert WorkerOk(s, t.w);
    forall w | 0 <= w < |s'.workers|
      ensures WorkerOk(s', w)
    {
      assert WorkerOk(s, w);
    }
  }

  lemma QueueInvKept(s: State, t: Step)
    requires QueueInv(s) && Enabled(s, t)
    ensures QueueInv(Apply(s, t))
  {
    if t.Enqueue? {
      EnqueueKept(s, t);
    } else if t.TryLock? {
      TryLockKept(s, t);
    } else if t.Complete? {
      CompleteKept(s, t);
    } else if t.Peek? || t.Unlock? {
      PeekKept(s, t);
    } else {
      OtherStepKept(s, t);
    }
  }

  lemma PeekKept(s: State, t: Step)
    requires QueueInv(s) && Enabled(s, t) && (t.Peek? || t.Unlock?)
    ensures QueueInv(Apply(s, t))
  {
    var s', k := Apply(s, t), s.workers[t.w].shard;
    assert WorkerOk(s, t.w);
    if t.Peek? && k < |s.shards| {
      assert ShardOk(s, k);
      assert forall l :: l in s.shards[k].queue ==> l in s.histories[k].pushed;
    }
    forall j | 0 <= j < |s'.shards|
      ensures ShardOk(s', j)
    {
      assert ShardOk(s, j);
    }
    forall w | 0 <= w < |s'.workers|
      ensures WorkerOk(s', w)
    {
      assert WorkerOk(s, w);
    }
  }

  /** Queues, locks and workers untouched. */
  lemma StillKept(s: State, s': State)
    requires QueueInv(s) && s'.layout == s.layout && s'.shards == s.shards && s'.histories == s.histories
    requires s'.workers == s.workers && s'.nextToken == s.nextToken
    ensures QueueInv(s')
  {
    forall k | 0 <= k < |s'.shards|
      ensures ShardOk(s', k)
    {
      assert ShardOk(s, k);
    }
    forall w | 0 <= w < |s'.workers|
      ensures WorkerOk(s', w)
    {
      assert WorkerOk(s, w);
    }
  }

  lemma LockExpiresKept(s: State, k: nat)
    requires QueueInv(s) && k < |s.shards|
    ensures QueueInv(s.(shards := s.shards[k := s.shards[k].(lock := None)]))
  {
    var s' := s.(shards := s.shards[k := s.shards[k].(lock := None)]);
    forall j | 0 <= j < |s'.shards|
      ensures ShardOk(s', j)
    {
      assert ShardOk(s, j);
    }
    forall w | 0 <= w < |s'.workers|
      ensures WorkerOk(s', w)
    {
      assert WorkerOk(s, w);
    }
  }

  /** A worker goes on with the batch it holds, or drops it. */
  lemma PcKept(s: State, w: nat, pc: Pc)
    requires QueueInv(s) && w < |s.workers|
    requires pc.Idle? || (HasRaw(pc) && HasRaw(s.workers[w].pc) && pc.raw == s.workers[w].pc.raw)
    ensures QueueInv(At(s, w, pc))
  {
    var s' := At(s, w, pc);
    assert WorkerOk(s, w);
    forall k | 0 <= k < |s'.shards|
      ensures ShardOk(s', k)
    {
      assert ShardOk(s, k);
    }
    forall v | 0 <= v < |s'.workers|
      ensures WorkerOk(s', v)
    {
      assert WorkerOk(s, v);
    }
  }

  lemma BeginKept(s: State, w: nat, k: nat)
    requires QueueInv(s) && w < |s.workers| && k < |s.shards|
    ensures QueueInv(s.(workers := s.workers[w := Worker(Locking, k, s.nextToken)], nextToken := s.nextToken + 1))
  {
    var s' := s.(workers := s.workers[w := Worker(Locking, k, s.nextToken)], nextToken := s.nextToken + 1);
    forall j | 0 <= j < |s'.shards|
      ensures ShardOk(s', j)
    {
      assert ShardOk(s, j);
    }
    forall v | 0 <= v < |s'.workers|
      ensures WorkerOk(s', v)
    {
      assert v < |s.workers| && WorkerOk(s, v);
    }
    forall v | 0 <= v < |s.workers| && !s.workers[v].pc.Idle?
      ensures s.workers[v].token < s.nextToken
    {
      assert WorkerOk(s, v);
    }
  }

  lemma OtherStepKept(s: State, t: Step)
    requires QueueInv(s) && Enabled(s, t)
    requires !t.Enqueue? && !t.TryLock? && !t.Complete? && !t.Peek? && !t.Unlock?
    ensures QueueInv(Apply(s, t))
  {
    if t.LockExpires? {
      LockExpiresKept(s, t.k);
    } else if t.Begin? {
      BeginKept(s, t.w, t.k);
    } else if t.Stop? {
      PcKept(s, t.w, Idle);
    } else if t.Insert? {
      PcKept(s, t.w, Apply(s, t).workers[t.w].pc);
      StillKept(At(s, t.w, Apply(s, t).workers[t.w].pc), Apply(s, t));
    } else if t.Select? {
      PcKept(s, t.w, Apply(s, t).workers[t.w].pc);
    } else {
      StillKept(s, Apply(s, t));
    }
  }

  lemma {:induction false} QueueInvAlways(s: State, steps: seq<Step>)
    requires Initial(s)
    ensures QueueInv(Run(s, steps))
  {
    if steps == [] {
      QueueInvInitially(s);
    } else {
      var before := Run(s, steps[..|steps| - 1]);
      QueueInvAlways(s, steps[..|steps| - 1]);
      if Enabled(before, steps[|steps| - 1]) {
        QueueInvKept(before, steps[|steps| - 1]);
      }
    }
  }

  /** In every run, what was pushed to a shard is what was consumed followed by what is queued. */
  lemma NothingLeavesTheQueueUnconsumed(s: State, steps: seq<Step>, k: nat)
    requires Initial(s) && k < |Run(s, steps).shards|
    ensures |Run(s, steps).histories| == |Run(s, steps).shards|
    ensures Run(s, steps).histories[k].pushed == Run(s, steps).histories[k].consumed + Run(s, steps).shards[k].queue
    ensures Run(s, steps).shards[k].dead == LastOf(Run(s, steps).histories[k].dead, DEAD_LETTER_CAP)
  {
    QueueInvAlways(s, steps);
    assert ShardOk(Run(s, steps), k);
  }

  /** A completion that the lock lets through consumes exactly the batch its worker read. */
  lemma CompletionConsumesWhatWasRead(s: State, steps: seq<Step>, t: Step)
    requires Initial(s) && t.Complete? && Enabled(Run(s, steps), t)
    requires Run(s, steps).workers[t.w].shard < |Run(s, steps).shards|
    ensures var before, after := Run(s, steps), Apply(Run(s, steps), t);
            var worker := before.workers[t.w];
            var k := worker.shard;
            && |before.histories| == |before.shards| == |after.histories| == |after.shards|
            && if OwnedBy(before.shards[k], worker.token)
               then after.histories[k].consumed == before.histories[k].consumed + worker.pc.raw
                    && before.shards[k].queue == worker.pc.raw + after.shards[k].queue
               else after.histories == before.histories && after.shards == before.shards
                    && after.hashes == before.hashes
  {
    QueueInvAlways(s, steps);
    if OwnedBy(Run(s, steps).shards[Run(s, steps).workers[t.w].shard], Run(s, steps).workers[t.w].token) {
      OwnerTrimsItsOwnBatch(Run(s, steps), t.w);
    }
  }
}
