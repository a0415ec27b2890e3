/** The primary of a cluster (src/cluster.ts): worker indexes across restarts, and the pending
    metrics snapshots as a map in the order in which they were requested. */
module Cluster {
  import opened Metrics
  import opened MetricsProtocol
  import opened MetricsSafety
  import S = Snapshots
  import Keys

  // ---- worker indexes ----

  /** Every index below n is held by exactly one worker. */
  predicate OnceEach(indexes: map<nat, nat>, n: nat) {
    && (forall w :: w in indexes ==> indexes[w] < n)
    && (forall i :: 0 <= i < n ==> i in indexes.Values)
    && forall v, w :: v in indexes && w in indexes && indexes[v] == indexes[w] ==> v == w
  }

  /** The indexes after a worker exited and a new one took its place; an unknown worker counts as
      worker 0. */
  function Restarted(indexes: map<nat, nat>, w: nat, id: nat): map<nat, nat> {
    (indexes - {w})[id := if w in indexes then indexes[w] else 0]
  }

  /** A restart keeps every index held exactly once exactly when the worker that exited was known. */
  lemma RestartKeepsIndexesExactlyWhenKnown(indexes: map<nat, nat>, n: nat, w: nat, id: nat)
    requires OnceEach(indexes, n) && n >= 1 && id !in indexes
    ensures OnceEach(Restarted(indexes, w, id), n) <==> w in indexes
  {
    var after := Restarted(indexes, w, id);
    if w in indexes {
      forall i | 0 <= i < n
        ensures i in after.Values
      {
        assert i in indexes.Values;
        var v :| v in indexes && indexes[v] == i;
        assert after[if v == w then id else v] == i;
      }
    } else {
      assert 0 in indexes.Values;
      var v :| v in indexes && indexes[v] == 0;
      assert v in after && after[v] == after[id] && v != id;
    }
  }

  /** A restart hands the index of the worker that exited to the new one and changes no other. */
  lemma RestartMovesOneIndex(indexes: map<nat, nat>, w: nat, id: nat)
    requires w in indexes && id !in indexes
    ensures var after := Restarted(indexes, w, id);
            && after.Keys == indexes.Keys - {w} + {id} && after[id] == indexes[w]
            && forall v :: v in indexes && v != w ==> v in after && after[v] == indexes[v]
  {
  }

  /** The indexes after a sequence of exits, each of a worker that then lives; ids count up. */
  function AfterExits(indexes: map<nat, nat>, id: nat, exits: seq<nat>): map<nat, nat> {
    if exits == [] then indexes
    else Restarted(AfterExits(indexes, id, exits[..|exits| - 1]), exits[|exits| - 1], id + |exits| - 1)
  }

  lemma OneMoreExit(indexes: map<nat, nat>, id: nat, exits: seq<nat>, w: nat)
    ensures AfterExits(indexes, id, exits + [w]) == Restarted(AfterExits(indexes, id, exits), w, id + |exits|)
  {
    assert (exits + [w])[..|exits|] == exits;
  }

  predicate LiveExits(indexes: map<nat, nat>, id: nat, exits: seq<nat>) {
    forall i :: 0 <= i < |exits| ==> exits[i] in AfterExits(indexes, id, exits[..i])
  }

  lemma LiveExitsFront(indexes: map<nat, nat>, id: nat, exits: seq<nat>)
    requires exits != [] && LiveExits(indexes, id, exits)
    ensures LiveExits(indexes, id, exits[..|exits| - 1])
    ensures exits[|exits| - 1] in AfterExits(indexes, id, exits[..|exits| - 1])
  {
    var front := exits[..|exits| - 1];
    forall i | 0 <= i < |front|
      ensures front[i] in AfterExits(indexes, id, front[..i])
    {
      assert front[..i] == exits[..i];
    }
  }

  lemma {:induction false} IndexesAlways(indexes: map<nat, nat>, n: nat, id: nat, exits: seq<nat>)
    requires n >= 1 && OnceEach(indexes, n) && (forall w :: w in indexes ==> w < id) && LiveExits(indexes, id, exits)
    ensures OnceEach(AfterExits(indexes, id, exits), n)
    ensures forall w :: w in AfterExits(indexes, id, exits) ==> w < id + |exits|
  {
    if exits != [] {
      var front := exits[..|exits| - 1];
      LiveExitsFront(indexes, id, exits);
      IndexesAlways(indexes, n, id, front);
      NextExit(indexes, AfterExits(indexes, id, front), n, id, exits);
    }
  }

  lemma NextExit(indexes: map<nat, nat>, before: map<nat, nat>, n: nat, id: nat, exits: seq<nat>)
    requires n >= 1 && exits != [] && before == AfterExits(indexes, id, exits[..|exits| - 1])
    requires OnceEach(before, n) && exits[|exits| - 1] in before && forall w :: w in before ==> w < id + |exits| - 1
    ensures OnceEach(AfterExits(indexes, id, exits), n)
    ensures forall w :: w in AfterExits(indexes, id, exits) ==> w < id + |exits|
  {
    RestartKeepsIndexesExactlyWhenKnown(before, n, exits[|exits| - 1], id + |exits| - 1);
  }

  /** Exactly one worker owns the shard. */
  ghost predicate OwnedOnce(live: map<nat, nat>, n: nat, shard: nat)
    requires n >= 1
  {
    && (exists w :: w in live && shard % n == live[w])
    && (forall v, w :: v in live && w in live && shard % n == live[v] && shard % n == live[w]
                       ==> v == w)
  }

  /** After any exits and restarts each of the 1,024 shards belongs to exactly one live worker. */
  lemma EveryShardHasOneOwner(indexes: map<nat, nat>, n: nat, id: nat, exits: seq<nat>, shard: nat)
    requires n >= 1 && OnceEach(indexes, n) && (forall w :: w in indexes ==> w < id) && LiveExits(indexes, id, exits)
    requires shard < Keys.LINK_KEY_SHARDS
    ensures OwnedOnce(AfterExits(indexes, id, exits), n, shard)
  {
    IndexesAlways(indexes, n, id, exits);
    OneOwner(AfterExits(indexes, id, exits), n, shard, shard % n);
  }

  lemma OneOwner(live: map<nat, nat>, n: nat, shard: nat, index: nat)
    requires n >= 1 && OnceEach(live, n) && index < n && shard % n == index
    ensures OwnedOnce(live, n, shard)
  {
    assert index in live.Values;
    var w :| w in live && live[w] == index;
    assert shard % n == live[w];
  }

  // ---- the primary process ----

  datatype Response = Response(id: Id, snapshot: S.Snapshot)

  /** Each response carries the sum of the batches merged when it was sent. */
  ghost predicate Matching(responses: seq<Response>, answers: seq<Answer>, merged: seq<Sent>) {
    |responses| == |answers| && forall i :: 0 <= i < |answers| ==> Matches(responses[i], answers[i], merged)
  }

  ghost predicate Matches(r: Response, a: Answer, merged: seq<Sent>) {
    a.batches <= |merged| && r.id == a.id && SumsUp(r.snapshot, merged[..a.batches])
  }

  /** The snapshot is what a worker collected from these calls. */
  ghost predicate IsBatch(batch: S.Snapshot, calls: seq<Call>) {
    batch == Collected(calls, InWorker)
  }

  /** The snapshot is the sum of the batches. */
  ghost predicate SumsUp(metrics: S.Snapshot, merged: seq<Sent>) {
    metrics == Merged(Contents(merged))
  }

  /** The new responses are those to the requests that awaited nobody but `w`, as far as their
      requesters are reachable, each with the metrics of now. */
  ghost predicate Answering(pending: seq<Pending>, reachable: set<nat>, w: nat, before: seq<Response>,
                            after: seq<Response>, metrics: S.Snapshot)
  {
    && before <= after
    && (forall r :: r in after[|before|..] ==>
          && r.snapshot == metrics
          && exists o :: o in pending && o.id == r.id && o.awaiting <= {w} && o.id.worker in reachable)
    && (forall o :: o in pending && o.awaiting <= {w} && o.id.worker in reachable ==>
          Response(o.id, metrics) in after[|before|..])
  }

  lemma NewResponses(p: Primary, q: Primary, w: nat, before: seq<Response>, after: seq<Response>, metrics: S.Snapshot)
    requires StruckOff(p, q, w) && before <= after
    requires |before| == |p.answers| && Matching(after, q.answers, q.merged) && SumsUp(metrics, q.merged)
    ensures Answering(p.snapshots, p.reachable, w, before, after, metrics)
  {
    var n := |before|;
    assert q.merged[..|q.merged|] == q.merged;
    forall k | n <= k < |after|
      ensures after[k].snapshot == metrics
      ensures exists o :: o in p.snapshots && o.id == after[k].id && o.awaiting <= {w} && o.id.worker in p.reachable
    {
      assert Matches(after[k], q.answers[k], q.merged);
      assert q.answers[k] == q.answers[n..][k - n];
      assert q.answers[k] in q.answers[n..];
    }
    forall o | o in p.snapshots && o.awaiting <= {w} && o.id.worker in p.reachable
      ensures Response(o.id, metrics) in after[n..]
    {
      var a := Answer(o.id, o.flushing, {}, o.acks, |p.merged|);
      assert a in q.answers[n..];
      var k :| 0 <= k < |q.answers[n..]| && q.answers[n..][k] == a;
      assert Matches(after[n + k], q.answers[n + k], q.merged);
      assert after[n..][k] == after[n + k];
    }
  }

  lemma MatchingGrows(responses: seq<Response>, answers: seq<Answer>, merged: seq<Sent>, x: Sent)
    requires Matching(responses, answers, merged)
    ensures Matching(responses, answers, merged + [x])
  {
    forall i | 0 <= i < |answers|
      ensures Matches(responses[i], answers[i], merged + [x])
    {
      assert Matches(responses[i], answers[i], merged);
      assert (merged + [x])[..answers[i].batches] == merged[..answers[i].batches];
    }
  }

  class PrimaryProcess {
    const workerCount: nat
    var workerIndexes: map<nat, nat>
    var nextWorkerId: nat
    var shuttingDown: bool
    var metrics: S.Snapshot
    var pendingSnapshots: seq<Pending>
    var connected: set<nat>
    var responses: seq<Response>
    ghost var merged: seq<Sent>
    ghost var answers: seq<Answer>
    ghost var exited: set<nat>

    ghost function State(): Primary
      reads this
    {
      Primary(merged, pendingSnapshots, answers, connected, exited)
    }

    ghost predicate MetricsValid()
      reads this
    {
      SumsUp(metrics, merged) && DistinctIds(pendingSnapshots)
    }

    ghost predicate ResponsesValid()
      reads this
    {
      Matching(responses, answers, merged)
    }

    ghost predicate IndexesValid()
      reads this
    {
      && (forall w :: w in workerIndexes ==> w < nextWorkerId)
      && (!shuttingDown ==> OnceEach(workerIndexes, workerCount))
    }

    ghost predicate Valid()
      reads this
    {
      MetricsValid() && ResponsesValid() && IndexesValid() && workerCount >= 1
    }

    constructor (count: nat)
      requires count >= 1
      ensures Valid() && !shuttingDown && workerCount == count && |connected| == count
      ensures merged == [] && pendingSnapshots == [] && answers == []
    {
      workerCount := count;
      nextWorkerId, shuttingDown, metrics, pendingSnapshots, responses := 0, false, S.EmptySnapshot, [], [];
      merged, answers, exited := [], [], {};
      workerIndexes, connected := map[], {};
      new;
      StartWorkers();
    }

    method StartWorkers()
      requires workerIndexes == map[] && connected == {} && nextWorkerId == 0
      modifies this`workerIndexes, this`nextWorkerId, this`connected
      ensures OnceEach(workerIndexes, workerCount) && connected == workerIndexes.Keys && |connected| == workerCount
      ensures forall w :: w in workerIndexes ==> w < nextWorkerId
    {
      for index := 0 to workerCount
        invariant nextWorkerId == index && |connected| == index
        invariant connected == workerIndexes.Keys && forall w :: w in workerIndexes ==> w < index
        invariant OnceEach(workerIndexes, index)
      {
        GrownIndexes(workerIndexes, index, index);
        StartWorker(index);
      }
    }

    method StartWorker(index: nat)
      modifies this`workerIndexes, this`nextWorkerId, this`connected
      ensures nextWorkerId == old(nextWorkerId) + 1 && connected == old(connected) + {old(nextWorkerId)}
      ensures workerIndexes == old(workerIndexes)[old(nextWorkerId) := index]
    {
      var id := nextWorkerId;
      nextWorkerId := nextWorkerId + 1;
      connected := connected + {id};
      workerIndexes := workerIndexes[id := index];
    }

    /** Takes the pending snapshot out and answers its requester while that is connected. */
    method CompleteSnapshot(id: Id)
      requires MetricsValid() && ResponsesValid()
      modifies this`pendingSnapshots, this`responses, this`answers
      ensures MetricsValid() && ResponsesValid()
      ensures var i := Position(old(pendingSnapshots), id);
              State() == if i < |old(pendingSnapshots)| then Completed(old(State()), i) else old(State())
      ensures forall s :: s in pendingSnapshots <==> s in old(pendingSnapshots) && s.id != id
      ensures responses == old(responses) +
                if id.worker in connected && exists s :: s in old(pendingSnapshots) && s.id == id
                then [Response(id, metrics)] else []
    {
      var i := Position(pendingSnapshots, id);
      if i == |pendingSnapshots| {
        return;
      }
      var pending := pendingSnapshots[i];
      WithoutPosition(pendingSnapshots, pendingSnapshots, i, id);
      StillDistinct(pendingSnapshots, i);
      assert pending in pendingSnapshots;
      pendingSnapshots := pendingSnapshots[..i] + pendingSnapshots[i + 1..];
      if id.worker !in connected {
        return;
      }
      SendResponse(pending);
    }

    method SendResponse(pending: Pending)
      requires MetricsValid() && ResponsesValid() && pending.id.worker in connected
      modifies this`responses, this`answers
      ensures MetricsValid() && ResponsesValid()
      ensures State() == Respond(old(State()), pending)
      ensures responses == old(responses) + [Response(pending.id, metrics)]
    {
      responses := responses + [Response(pending.id, metrics)];
      answers := answers + [Answer(pending.id, pending.flushing, pending.awaiting, pending.acks, |merged|)];
      assert merged[..|merged|] == merged;
    }

    /** Asks every connected worker to flush; `told` are those. */
    method RequestWorkerFlushes(id: Id) returns (told: set<nat>)
      requires MetricsValid() && ResponsesValid()
      modifies this`pendingSnapshots, this`responses, this`answers
      ensures MetricsValid() && ResponsesValid()
      ensures State() == Requested(old(State()), id) && told == Asked(old(State()), SnapshotRequest(id))
      ensures told == connected == old(connected) && responses == old(responses)
      ensures forall s :: s in pendingSnapshots
                     <==> if told == {} then s in old(pendingSnapshots)
                          else (s in old(pendingSnapshots) && s.id != id) || s == Pending(id, told, told, map[])
    {
      ghost var p := State();
      forall s
        ensures s in Requested(p, id).snapshots
           <==> if connected == {} then s in pendingSnapshots
                else (s in pendingSnapshots && s.id != id) || s == Pending(id, connected, connected, map[])
      {
        RequestedExactly(p, id, s);
      }
      told := connected;
      var pending := Pending(id, connected, connected, map[]);
      if connected == {} {
        return;
      }
      var i := Position(pendingSnapshots, id);
      pendingSnapshots :=
        if i < |pendingSnapshots| then pendingSnapshots[i := pending] else pendingSnapshots + [pending];
    }

    method AcknowledgeWorkerFlush(w: nat, id: Id, mark: Mark)
      requires MetricsValid() && ResponsesValid()
      modifies this`pendingSnapshots, this`responses, this`answers
      ensures MetricsValid() && ResponsesValid()
      ensures State() == Confirmed(old(State()), w, id, mark)
      ensures Acknowledges(old(State()), State(), w, id, mark)
    {
      ConfirmedAcknowledges(State(), w, id, mark);
      var i := Position(pendingSnapshots, id);
      if i == |pendingSnapshots| {
        return;
      }
      var pending := pendingSnapshots[i];
      pending := pending.(awaiting := pending.awaiting - {w}, acks := pending.acks[w := mark]);
      SettleAt(i, pending);
    }

    /** Stores a pending snapshot, and completes it when it awaits nobody. */
    method SettleAt(i: nat, pending: Pending)
      requires MetricsValid() && ResponsesValid() && i < |pendingSnapshots| && pending.id == pendingSnapshots[i].id
      modifies this`pendingSnapshots, this`responses, this`answers
      ensures MetricsValid() && ResponsesValid()
      ensures State() == Settled(old(State()), i, pending) && old(responses) <= responses
    {
      pendingSnapshots := pendingSnapshots[i := pending];
      if pending.awaiting == {} {
        UniquePosition(pendingSnapshots, i);
        CompleteSnapshot(pending.id);
      }
    }

    method RemoveWorkerFromSnapshots(w: nat)
      requires MetricsValid() && ResponsesValid()
      modifies this`pendingSnapshots, this`responses, this`answers
      ensures MetricsValid() && ResponsesValid()
      ensures State() == Removed(old(State()), w, 0)
      ensures StruckOff(old(State()), State(), w)
      ensures Answering(old(pendingSnapshots), connected, w, old(responses), responses, metrics)
    {
      ghost var before, p := responses, State();
      StrikeOff(w);
      RemovedStrikesOff(p, w);
      NewResponses(p, State(), w, before, responses, metrics);
    }

    /** The loop, which stays where it is when it deletes. */
    method StrikeOff(w: nat)
      requires MetricsValid() && ResponsesValid()
      modifies this`pendingSnapshots, this`responses, this`answers
      ensures MetricsValid() && ResponsesValid() && old(responses) <= responses
      ensures State() == Removed(old(State()), w, 0)
    {
      var i := 0;
      while i < |pendingSnapshots|
        invariant i <= |pendingSnapshots| && MetricsValid() && ResponsesValid()
        invariant old(responses) <= responses
        invariant Removed(State(), w, i) == Removed(old(State()), w, 0)
        decreases |pendingSnapshots| - i
      {
        var pending := pendingSnapshots[i].(awaiting := pendingSnapshots[i].awaiting - {w});
        SettleAt(i, pending);
        i := if pending.awaiting == {} then i else i + 1;
      }
    }

    method AddBatch(w: nat, batch: S.Snapshot, ghost calls: seq<Call>)
      requires MetricsValid() && ResponsesValid() && IsBatch(batch, calls)
      modifies this`metrics, this`merged
      ensures MetricsValid() && ResponsesValid() && merged == old(merged) + [Sent(w, calls)]
    {
      MatchingGrows(responses, answers, merged, Sent(w, calls));
      Merge(batch, Sent(w, calls));
    }

    method Merge(batch: S.Snapshot, ghost x: Sent)
      requires SumsUp(metrics, merged) && IsBatch(batch, x.calls)
      modifies this`metrics, this`merged
      ensures SumsUp(metrics, merged) && merged == old(merged) + [x]
    {
      ghost var after := merged + [x];
      var sum := AddToSum(metrics, batch, merged, x, after);
      metrics, merged := sum, after;
    }

    static method AddToSum(metrics: S.Snapshot, batch: S.Snapshot, ghost merged: seq<Sent>, ghost x: Sent,
                           ghost after: seq<Sent>)
      returns (sum: S.Snapshot)
      requires SumsUp(metrics, merged) && IsBatch(batch, x.calls) && after == merged + [x]
      ensures SumsUp(sum, after)
    {
      sum := S.AddMetricsSnapshot(metrics, batch);
      MergedPush(merged, x);
    }

    /** A worker process is gone: it is awaited no more, and outside shutdown a new one takes over
        its index. */
    method OnExit(w: nat) returns (started: bool)
      requires Valid()
      modifies this
      ensures MetricsValid() && ResponsesValid() && (w in old(workerIndexes) ==> Valid())
      ensures started == !old(shuttingDown) && shuttingDown == old(shuttingDown)
      ensures workerIndexes == if started then Restarted(old(workerIndexes), w, old(nextWorkerId))
                               else old(workerIndexes) - {w}
      ensures State() == var left := old(State()).(reachable := old(connected) - {w}, exited := old(exited) + {w});
                         var q := Removed(left, w, 0);
                         if started then q.(reachable := q.reachable + {old(nextWorkerId)}) else q
      // nobody waits for the worker any more, and nobody waits for nobody
      ensures forall s :: s in pendingSnapshots
                     <==> && s.awaiting != {}
                          && exists o :: o in old(pendingSnapshots) && s == o.(awaiting := o.awaiting - {w})
      ensures connected == if started then old(connected) - {w} + {old(nextWorkerId)} else old(connected) - {w}
      ensures metrics == old(metrics)
      ensures Answering(old(pendingSnapshots), old(connected) - {w}, w, old(responses), responses, metrics)
    {
      connected, exited := connected - {w}, exited + {w};
      RemoveWorkerFromSnapshots(w);
      started := ReplaceWorker(w);
    }

    method ReplaceWorker(w: nat) returns (started: bool)
      requires IndexesValid() && workerCount >= 1
      modifies this`workerIndexes, this`nextWorkerId, this`connected
      ensures (w in old(workerIndexes) ==> IndexesValid()) && started == !shuttingDown
      ensures workerIndexes == if started then Restarted(old(workerIndexes), w, old(nextWorkerId))
                               else old(workerIndexes) - {w}
      ensures connected == if started then old(connected) + {old(nextWorkerId)} else old(connected)
    {
      ghost var before := workerIndexes;
      var index := if w in workerIndexes then workerIndexes[w] else 0;
      workerIndexes := workerIndexes - {w};
      started := !shuttingDown;
      if started {
        RestartKeepsIndexesExactlyWhenKnown(before, workerCount, w, nextWorkerId);
        StartWorker(index);
      }
    }

    method Shutdown()
      requires Valid()
      modifies this`shuttingDown, this`pendingSnapshots
      ensures Valid() && shuttingDown
      ensures State() == if old(shuttingDown) then old(State()) else old(State()).(snapshots := [])
    {
      if shuttingDown {
        return;
      }
      shuttingDown := true;
      pendingSnapshots := [];
    }
  }

  lemma GrownIndexes(indexes: map<nat, nat>, n: nat, id: nat)
    requires OnceEach(indexes, n) && id !in indexes
    ensures OnceEach(indexes[id := n], n + 1)
  {
    var grown := indexes[id := n];
    forall i | 0 <= i < n
      ensures i in grown.Values
    {
      assert i in indexes.Values;
      var v :| v in indexes && indexes[v] == i;
      assert grown[v] == i;
    }
    assert grown[id] == n;
    forall v | v in indexes
      ensures indexes[v] < n
    {
      assert indexes[v] in indexes.Values;
    }
  }

  lemma StillDistinct(snapshots: seq<Pending>, i: nat)
    requires i < |snapshots| && DistinctIds(snapshots)
    ensures DistinctIds(snapshots[..i] + snapshots[i + 1..])
  {
    Rest(snapshots, i);
  }

  lemma UniquePosition(snapshots: seq<Pending>, i: nat)
    requires i < |snapshots| && DistinctIds(snapshots)
    ensures Position(snapshots, snapshots[i].id) == i
  {
  }

  lemma MergedPush(merged: seq<Sent>, x: Sent)
    ensures Merged(Contents(merged + [x]))
         == S.AddSnapshot(Merged(Contents(merged)), Collected(x.calls, InWorker))
  {
    var contents := Contents(merged);
    assert (merged + [x])[..|merged|] == merged;
    assert (contents + [x.calls])[..|contents|] == contents;
  }
}
