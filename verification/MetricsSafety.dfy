/** What every run of the metrics protocol keeps: no call is lost or counted twice, no request is
    answered twice, and a response to all acknowledgements contains everything they vouch for. */
module MetricsSafety {
  import opened Metrics
  import opened MetricsProtocol
  import opened Numbers

  // ---- calls in channels and in the primary ----

  lemma {:induction false} TransitConcat(a: seq<Message>, b: seq<Message>)
    ensures Transit(a + b) == Transit(a) + Transit(b)
  {
    if b == [] {
      assert a + b == a;
    } else {
      assert (a + b)[..|a + b| - 1] == a + b[..|b| - 1];
      TransitConcat(a, b[..|b| - 1]);
    }
  }

  lemma TransitOne(m: Message)
    ensures Transit([m]) == if m.Batch? then m.calls else []
  {
    assert [m][..0] == [];
  }

  lemma TransitPop(up: seq<Message>)
    requires up != []
    ensures Transit(up) == (if up[0].Batch? then up[0].calls else []) + Transit(up[1..])
  {
    assert up == [up[0]] + up[1..];
    TransitConcat([up[0]], up[1..]);
    TransitOne(up[0]);
  }

  lemma TransitPush(up: seq<Message>, m: Message)
    ensures Transit(up + [m]) == Transit(up) + if m.Batch? then m.calls else []
  {
    TransitConcat(up, [m]);
    TransitOne(m);
  }

  lemma TransitCut(up: seq<Message>, n: nat)
    requires n <= |up|
    ensures Transit(up) == Transit(up[..n]) + Transit(up[n..])
  {
    var front, rest := up[..n], up[n..];
    TransitConcat(front, rest);
    assert front + rest == up;
  }

  /** The calls of one worker that the primary has merged, in order. */
  function HandledBy(merged: seq<Sent>, w: nat): seq<Call> {
    if merged == [] then []
    else
      var last := merged[|merged| - 1];
      HandledBy(merged[..|merged| - 1], w) + if last.worker == w then last.calls else []
  }

  lemma HandledPush(merged: seq<Sent>, x: Sent, w: nat)
    ensures HandledBy(merged + [x], w) == HandledBy(merged, w) + if x.worker == w then x.calls else []
  {
    assert (merged + [x])[..|merged|] == merged;
  }

  lemma {:induction false} HandledPrefix(merged: seq<Sent>, n: nat, w: nat)
    requires n <= |merged|
    ensures HandledBy(merged[..n], w) <= HandledBy(merged, w)
    decreases |merged|
  {
    if n < |merged| {
      HandledPrefix(merged[..|merged| - 1], n, w);
      assert merged[..|merged| - 1][..n] == merged[..n];
    } else {
      assert merged[..n] == merged;
    }
  }

  lemma {:induction false} HandledByNobody(merged: seq<Sent>, w: nat)
    requires forall i :: 0 <= i < |merged| ==> merged[i].worker != w
    ensures HandledBy(merged, w) == []
  {
    if merged != [] {
      HandledByNobody(merged[..|merged| - 1], w);
    }
  }

  // ---- every worker's calls stay in order ----

  /** What a worker recorded is what was merged, then what its channel holds, then what is pending;
      a worker that died may have lost the end. */
  predicate Accounted(k: Worker, handled: seq<Call>) {
    && (k.alive ==> k.recorded == handled + Transit(k.up) + k.pending)
    && (!k.alive ==> k.pending == [] && handled + Transit(k.up) <= k.recorded)
  }

  predicate Conserved(s: State) {
    && (forall i :: 0 <= i < |s.primary.merged| ==> s.primary.merged[i].worker < |s.workers|)
    && (forall w :: 0 <= w < |s.workers| ==> Accounted(s.workers[w], HandledBy(s.primary.merged, w)))
  }

  lemma FlushAccounted(k: Worker, handled: seq<Call>, throws: bool)
    requires k.alive && Accounted(k, handled)
    ensures Accounted(Flushed(k, throws), handled)
  {
    if k.pending != [] && !throws {
      TransitPush(k.up, Batch(k.pending));
      assert handled + (Transit(k.up) + k.pending) + [] == handled + Transit(k.up) + k.pending;
    }
  }

  lemma ConfirmAccounted(k: Worker, handled: seq<Call>, id: Id)
    requires Accounted(k, handled)
    ensures Accounted(Confirming(k, id), handled)
  {
    TransitPush(k.up, FlushResponse(id, Mark(|k.recorded|, |k.recorded| - |k.pending|)));
  }

  lemma AcknowledgeAccounted(k: Worker, handled: seq<Call>, id: Id, throws: bool)
    requires k.alive && Accounted(k, handled)
    ensures Accounted(Acknowledged(k, id, throws), handled)
  {
    FlushAccounted(k, handled, throws);
    ConfirmAccounted(Flushed(k, throws), handled, id);
  }

  lemma CrashAccounted(k: Worker, handled: seq<Call>, n: nat)
    requires k.alive && Accounted(k, handled) && n <= |k.up|
    ensures Accounted(k.(alive := false, pending := [], up := k.up[..n]), handled)
  {
    TransitCut(k.up, n);
    assert k.recorded == (handled + Transit(k.up[..n])) + (Transit(k.up[n..]) + k.pending);
  }

  lemma ReceiveAccounted(k: Worker, handled: seq<Call>)
    requires k.up != [] && Accounted(k, handled)
    ensures Accounted(k.(up := k.up[1..]), handled + if k.up[0].Batch? then k.up[0].calls else [])
  {
    TransitPop(k.up);
    var b := if k.up[0].Batch? then k.up[0].calls else [];
    assert handled + (b + Transit(k.up[1..])) == handled + b + Transit(k.up[1..]);
  }

  lemma WorkerConserves(s: State, w: nat, k: Worker, log: seq<Call>, lost: multiset<Call>)
    requires Conserved(s) && w < |s.workers| && Accounted(k, HandledBy(s.primary.merged, w))
    ensures Conserved(s.(workers := s.workers[w := k], log := log, lost := lost))
  {
  }

  lemma PrimaryConserves(s: State, q: Primary)
    requires Conserved(s) && q.merged == s.primary.merged
    ensures Conserved(s.(primary := q))
  {
  }

  lemma StartConserves(s: State)
    requires Conserved(s)
    ensures Conserved(Apply(s, Start))
  {
    var t, newcomer := Apply(s, Start), Worker(true, [], [], [], 0, []);
    assert t.workers == s.workers + [newcomer] && t.primary.merged == s.primary.merged;
    StartAccounts(s.workers, s.primary.merged, newcomer);
  }

  lemma StartAccounts(workers: seq<Worker>, merged: seq<Sent>, newcomer: Worker)
    requires forall i :: 0 <= i < |merged| ==> merged[i].worker < |workers|
    requires forall w :: 0 <= w < |workers| ==> Accounted(workers[w], HandledBy(merged, w))
    requires newcomer == Worker(true, [], [], [], 0, [])
    ensures forall w :: 0 <= w < |workers + [newcomer]| ==> Accounted((workers + [newcomer])[w], HandledBy(merged, w))
  {
    HandledByNobody(merged, |workers|);
    assert Accounted(newcomer, []);
  }

  lemma RecordAccounted(k: Worker, handled: seq<Call>, call: Call)
    requires k.alive && Accounted(k, handled)
    ensures Accounted(k.(pending := k.pending + [call], recorded := k.recorded + [call]), handled)
  {
    assert k.recorded + [call] == handled + Transit(k.up) + (k.pending + [call]);
  }

  lemma RequestAccounted(k: Worker, handled: seq<Call>, id: Id)
    requires Accounted(k, handled)
    ensures Accounted(k.(asked := k.asked + 1, up := k.up + [SnapshotRequest(id)]), handled)
  {
    TransitPush(k.up, SnapshotRequest(id));
  }

  lemma ConservedKept(s: State, step: Step)
    requires Conserved(s) && Enabled(s, step)
    ensures Conserved(Apply(s, step))
  {
    match step
    case Start =>
      StartConserves(s);
    case Record(w, call) =>
      var k := s.workers[w];
      RecordAccounted(k, HandledBy(s.primary.merged, w), call);
      WorkerConserves(s, w, k.(pending := k.pending + [call], recorded := k.recorded + [call]), s.log + [call], s.lost);
    case Flush(w, throws) =>
      FlushAccounted(s.workers[w], HandledBy(s.primary.merged, w), throws);
      WorkerConserves(s, w, Flushed(s.workers[w], throws), s.log, s.lost);
    case RequestSnapshot(w) =>
      var k, id := s.workers[w], Id(w, s.workers[w].asked + 1);
      RequestAccounted(k, HandledBy(s.primary.merged, w), id);
      WorkerConserves(s, w, k.(asked := k.asked + 1, up := k.up + [SnapshotRequest(id)]), s.log, s.lost);
    case AnswerFlush(w, throws) =>
      var k := s.workers[w].(down := s.workers[w].down[1..]);
      AcknowledgeAccounted(k, HandledBy(s.primary.merged, w), s.workers[w].down[0], throws);
      WorkerConserves(s, w, Acknowledged(k, s.workers[w].down[0], throws), s.log, s.lost);
    case Receive(w) =>
      ReceiveConserves(s, w);
    case Crash(w, delivered) =>
      var k := s.workers[w];
      CrashAccounted(k, HandledBy(s.primary.merged, w), delivered);
      WorkerConserves(s, w, k.(alive := false, pending := [], up := k.up[..delivered]), s.log, Apply(s, step).lost);
    case _ =>
      PrimaryConserves(s, Apply(s, step).primary);
  }

  /** Handling a message merges its calls, if it is a batch, as calls of its sender. */
  lemma ReceivedCalls(p: Primary, w: nat, m: Message, v: nat)
    ensures HandledBy(Handled(p, w, m).merged, v)
         == HandledBy(p.merged, v) + if v == w && m.Batch? then m.calls else []
  {
    if m.Batch? {
      HandledPush(p.merged, Sent(w, m.calls), v);
    }
  }

  lemma ReceiveKeepsWorker(s: State, w: nat, v: nat)
    requires Conserved(s) && Enabled(s, Receive(w)) && v < |s.workers|
    ensures var t := Apply(s, Receive(w)); Accounted(t.workers[v], HandledBy(t.primary.merged, v))
  {
    assert Accounted(s.workers[v], HandledBy(s.primary.merged, v));
    ReceivedCalls(s.primary, w, s.workers[w].up[0], v);
    var k, handled := s.workers[v], HandledBy(s.primary.merged, v);
    var down := Apply(s, Receive(w)).workers[v].down;
    if v == w {
      ReceiveAccounted(k, handled);
      ToldAccounted(k.(up := k.up[1..]), handled + if k.up[0].Batch? then k.up[0].calls else [], down);
    } else {
      assert handled + [] == handled;
      ToldAccounted(k, handled, down);
    }
  }

  lemma ToldAccounted(k: Worker, handled: seq<Call>, down: seq<Id>)
    requires Accounted(k, handled)
    ensures Accounted(k.(down := down), handled)
  {
  }

  lemma ReceiveConserves(s: State, w: nat)
    requires Conserved(s) && Enabled(s, Receive(w))
    ensures Conserved(Apply(s, Receive(w)))
  {
    var t := Apply(s, Receive(w));
    forall v | 0 <= v < |t.workers|
      ensures Accounted(t.workers[v], HandledBy(t.primary.merged, v))
    {
      ReceiveKeepsWorker(s, w, v);
    }
  }

  // ---- nothing is lost or counted twice ----

  function Contents(merged: seq<Sent>): seq<seq<Call>> {
    if merged == [] then [] else Contents(merged[..|merged| - 1]) + [merged[|merged| - 1].calls]
  }

  function Times(calls: seq<Call>, c: Call): nat {
    multiset(calls)[c]
  }

  function Held(k: Worker, c: Call): nat {
    Times(Transit(k.up), c) + Times(k.pending, c)
  }

  function HeldByEach(workers: seq<Worker>, c: Call): (r: seq<nat>)
    ensures |r| == |workers| && forall w :: 0 <= w < |workers| ==> r[w] == Held(workers[w], c)
  {
    seq(|workers|, w requires 0 <= w < |workers| => Held(workers[w], c))
  }

  /** How often a call is still on its way, over all workers. */
  function Outstanding(workers: seq<Worker>, c: Call): nat {
    SumOf(HeldByEach(workers, c))
  }

  predicate Balanced(s: State, c: Call) {
    Times(s.log, c) == Times(Flat(Contents(s.primary.merged)), c) + Outstanding(s.workers, c) + s.lost[c]
  }

  /** A step of one worker balances when what it records, drops or sends adds up. */
  lemma OneWorkerBalances(s: State, w: nat, k: Worker, log: seq<Call>, lost: multiset<Call>, c: Call)
    requires Balanced(s, c) && w < |s.workers|
    requires Times(log, c) + Held(s.workers[w], c) + s.lost[c] == Times(s.log, c) + Held(k, c) + lost[c]
    ensures Balanced(s.(workers := s.workers[w := k], log := log, lost := lost), c)
  {
    var held := HeldByEach(s.workers, c);
    SumOfUpdate(held, w, Held(k, c));
    assert HeldByEach(s.workers[w := k], c) == held[w := Held(k, c)];
  }

  lemma ContentsPush(merged: seq<Sent>, x: Sent, c: Call)
    ensures Times(Flat(Contents(merged + [x])), c) == Times(Flat(Contents(merged)), c) + Times(x.calls, c)
  {
    assert (merged + [x])[..|merged|] == merged;
    assert (Contents(merged) + [x.calls])[..|Contents(merged)|] == Contents(merged);
  }

  lemma FlushHolds(k: Worker, throws: bool, c: Call)
    ensures Held(Flushed(k, throws), c) == Held(k, c)
  {
    TransitPush(k.up, Batch(k.pending));
  }

  lemma AcknowledgeHolds(k: Worker, id: Id, throws: bool, c: Call)
    ensures Held(Acknowledged(k, id, throws), c) == Held(k, c)
  {
    FlushHolds(k, throws, c);
    var f := Flushed(k, throws);
    TransitPush(f.up, FlushResponse(id, Mark(|f.recorded|, |f.recorded| - |f.pending|)));
  }

  lemma RecordHolds(k: Worker, call: Call, c: Call)
    ensures Held(k.(pending := k.pending + [call], recorded := k.recorded + [call]), c) == Held(k, c) + Times([call], c)
  {
  }

  lemma CrashHolds(k: Worker, n: nat, c: Call)
    requires n <= |k.up|
    ensures Held(k.(alive := false, pending := [], up := k.up[..n]), c)
            + Times(Transit(k.up[n..]), c) + Times(k.pending, c)
         == Held(k, c)
  {
    TransitCut(k.up, n);
  }

  lemma PopHolds(k: Worker, c: Call)
    requires k.up != []
    ensures Held(k.(up := k.up[1..]), c) + Times(if k.up[0].Batch? then k.up[0].calls else [], c) == Held(k, c)
  {
    TransitPop(k.up);
  }

  lemma StartBalances(s: State, c: Call)
    requires Balanced(s, c)
    ensures Balanced(Apply(s, Start), c)
  {
    var k := Worker(true, [], [], [], 0, []);
    var held, grown := HeldByEach(s.workers, c), HeldByEach(s.workers + [k], c);
    assert grown[..|grown| - 1] == held && grown[|held|] == Held(k, c) == 0;
  }

  lemma RequestHolds(k: Worker, id: Id, c: Call)
    ensures Held(k.(asked := k.asked + 1, up := k.up + [SnapshotRequest(id)]), c) == Held(k, c)
  {
    TransitPush(k.up, SnapshotRequest(id));
  }

  lemma RecordBalances(s: State, w: nat, call: Call, c: Call)
    requires Balanced(s, c) && Enabled(s, Record(w, call))
    ensures Balanced(Apply(s, Record(w, call)), c)
  {
    RecordHolds(s.workers[w], call, c);
    assert Times(s.log + [call], c) == Times(s.log, c) + Times([call], c);
    OneWorkerBalances(s, w, Apply(s, Record(w, call)).workers[w], s.log + [call], s.lost, c);
  }

  lemma CrashBalances(s: State, w: nat, delivered: nat, c: Call)
    requires Balanced(s, c) && Enabled(s, Crash(w, delivered))
    ensures Balanced(Apply(s, Crash(w, delivered)), c)
  {
    var t := Apply(s, Crash(w, delivered));
    CrashHolds(s.workers[w], delivered, c);
    OneWorkerBalances(s, w, t.workers[w], s.log, t.lost, c);
  }

  lemma FlushBalances(s: State, w: nat, throws: bool, c: Call)
    requires Balanced(s, c) && Enabled(s, Flush(w, throws))
    ensures Balanced(Apply(s, Flush(w, throws)), c)
  {
    FlushHolds(s.workers[w], throws, c);
    OneWorkerBalances(s, w, Flushed(s.workers[w], throws), s.log, s.lost, c);
  }

  lemma RequestBalances(s: State, w: nat, c: Call)
    requires Balanced(s, c) && Enabled(s, RequestSnapshot(w))
    ensures Balanced(Apply(s, RequestSnapshot(w)), c)
  {
    RequestHolds(s.workers[w], Id(w, s.workers[w].asked + 1), c);
    OneWorkerBalances(s, w, Apply(s, RequestSnapshot(w)).workers[w], s.log, s.lost, c);
  }

  lemma AnswerBalances(s: State, w: nat, throws: bool, c: Call)
    requires Balanced(s, c) && Enabled(s, AnswerFlush(w, throws))
    ensures Balanced(Apply(s, AnswerFlush(w, throws)), c)
  {
    var k := s.workers[w].(down := s.workers[w].down[1..]);
    SameHeld(k, s.workers[w], c);
    AcknowledgeHolds(k, s.workers[w].down[0], throws, c);
    OneWorkerBalances(s, w, Acknowledged(k, s.workers[w].down[0], throws), s.log, s.lost, c);
  }

  lemma PrimaryBalances(s: State, q: Primary, c: Call)
    requires Balanced(s, c) && q.merged == s.primary.merged
    ensures Balanced(s.(primary := q), c)
  {
  }

  lemma BalancedKept(s: State, step: Step, c: Call)
    requires Balanced(s, c) && Enabled(s, step)
    ensures Balanced(Apply(s, step), c)
  {
    match step
    case Start => StartBalances(s, c);
    case Record(w, call) => RecordBalances(s, w, call, c);
    case Flush(w, throws) => FlushBalances(s, w, throws, c);
    case RequestSnapshot(w) => RequestBalances(s, w, c);
    case AnswerFlush(w, throws) => AnswerBalances(s, w, throws, c);
    case Receive(w) => ReceiveBalances(s, w, c);
    case Crash(w, delivered) => CrashBalances(s, w, delivered, c);
    case _ => PrimaryBalances(s, Apply(s, step).primary, c);
  }

  lemma MergeBalances(s: State, w: nat, k: Worker, x: Sent, c: Call)
    requires Balanced(s, c) && w < |s.workers| && Held(k, c) + Times(x.calls, c) == Held(s.workers[w], c)
    ensures Balanced(s.(workers := s.workers[w := k], primary := s.primary.(merged := s.primary.merged + [x])), c)
  {
    var held := HeldByEach(s.workers, c);
    SumOfUpdate(held, w, Held(k, c));
    assert HeldByEach(s.workers[w := k], c) == held[w := Held(k, c)];
    ContentsPush(s.primary.merged, x, c);
  }

  /** Flush requests and the primary's bookkeeping hold no calls. */
  lemma SameCallsBalance(s: State, t: State, c: Call)
    requires Balanced(s, c) && s.log == t.log && s.lost == t.lost && s.primary.merged == t.primary.merged
    requires |s.workers| == |t.workers|
    requires forall w :: 0 <= w < |s.workers| ==> Held(s.workers[w], c) == Held(t.workers[w], c)
    ensures Balanced(t, c)
  {
    assert HeldByEach(s.workers, c) == HeldByEach(t.workers, c);
  }

  lemma SameHeld(a: Worker, b: Worker, c: Call)
    requires a.up == b.up && a.pending == b.pending
    ensures Held(a, c) == Held(b, c)
  {
  }

  lemma ReceiveOtherBalances(s: State, w: nat, c: Call)
    requires Balanced(s, c) && Enabled(s, Receive(w)) && !s.workers[w].up[0].Batch?
    ensures Balanced(Apply(s, Receive(w)), c)
  {
    var t := Apply(s, Receive(w));
    var popped := s.workers[w].(up := s.workers[w].up[1..]);
    var u := s.(workers := s.workers[w := popped]);
    PopHolds(s.workers[w], c);
    OneWorkerBalances(s, w, popped, s.log, s.lost, c);
    forall v | 0 <= v < |u.workers|
      ensures Held(u.workers[v], c) == Held(t.workers[v], c)
    {
      SameHeld(u.workers[v], t.workers[v], c);
    }
    SameCallsBalance(u, t, c);
  }

  lemma ReceiveBalances(s: State, w: nat, c: Call)
    requires Balanced(s, c) && Enabled(s, Receive(w))
    ensures Balanced(Apply(s, Receive(w)), c)
  {
    var k, m := s.workers[w], s.workers[w].up[0];
    if m.Batch? {
      var popped := k.(up := k.up[1..]);
      PopHolds(k, c);
      MergeBalances(s, w, popped, Sent(w, m.calls), c);
      assert Apply(s, Receive(w)).workers == s.workers[w := popped];
    } else {
      ReceiveOtherBalances(s, w, c);
    }
  }

  // ---- no request is answered twice ----

  predicate Unused(p: Primary, id: Id) {
    && (forall i :: 0 <= i < |p.snapshots| ==> p.snapshots[i].id != id)
    && (forall i :: 0 <= i < |p.answers| ==> p.answers[i].id != id)
  }

  /** A request is pending at most once or answered at most once, and not both. */
  predicate Once(p: Primary) {
    && (forall i, j :: 0 <= i < j < |p.snapshots| ==> p.snapshots[i].id != p.snapshots[j].id)
    && (forall i, j :: 0 <= i < j < |p.answers| ==> p.answers[i].id != p.answers[j].id)
    && (forall i, j :: 0 <= i < |p.snapshots| && 0 <= j < |p.answers| ==> p.snapshots[i].id != p.answers[j].id)
  }

  lemma Rest<T>(s: seq<T>, i: nat)
    requires i < |s|
    ensures var rest := s[..i] + s[i + 1..];
            forall k :: 0 <= k < |rest| ==> rest[k] == s[if k < i then k else k + 1]
  {
  }

  lemma CompletedOnce(p: Primary, i: nat)
    requires Once(p) && i < |p.snapshots|
    ensures Once(Completed(p, i))
    ensures forall id :: Unused(p, id) ==> Unused(Completed(p, i), id)
  {
    Rest(p.snapshots, i);
  }

  lemma SettledOnce(p: Primary, i: nat, s: Pending)
    requires Once(p) && i < |p.snapshots| && s.id == p.snapshots[i].id
    ensures Once(Settled(p, i, s))
    ensures forall id :: Unused(p, id) ==> Unused(Settled(p, i, s), id)
  {
    var q := p.(snapshots := p.snapshots[i := s]);
    assert forall k :: 0 <= k < |q.snapshots| ==> q.snapshots[k].id == p.snapshots[k].id;
    assert Once(q);
    assert forall id :: Unused(p, id) ==> Unused(q, id);
    if s.awaiting == {} {
      CompletedOnce(q, i);
    }
  }

  lemma {:induction false} RemovedOnce(p: Primary, w: nat, i: nat)
    requires Once(p)
    ensures Once(Removed(p, w, i))
    ensures forall id :: Unused(p, id) ==> Unused(Removed(p, w, i), id)
    decreases |p.snapshots| - i
  {
    if i < |p.snapshots| {
      var s := p.snapshots[i].(awaiting := p.snapshots[i].awaiting - {w});
      SettledOnce(p, i, s);
      RemovedOnce(Settled(p, i, s), w, if s.awaiting == {} then i else i + 1);
    }
  }

  lemma RequestedOnce(p: Primary, id: Id)
    requires Once(p) && Unused(p, id)
    ensures Once(Requested(p, id))
    ensures forall other :: other != id && Unused(p, other) ==> Unused(Requested(p, id), other)
  {
  }

  /** A worker's requests in its channel are its own, all different, and not known to the primary. */
  ghost predicate Fresh(p: Primary, w: nat, k: Worker) {
    && (forall i :: 0 <= i < |k.up| && k.up[i].SnapshotRequest? ==>
          k.up[i].id.worker == w && k.up[i].id.number <= k.asked && Unused(p, k.up[i].id))
    && (forall i, j :: 0 <= i < j < |k.up| && k.up[i].SnapshotRequest? && k.up[j].SnapshotRequest? ==>
          k.up[i].id != k.up[j].id)
    && (forall n :: n > k.asked ==> Unused(p, Id(w, n)))
  }

  ghost predicate Unstarted(p: Primary, n: nat) {
    forall w, i :: w >= n ==> Unused(p, Id(w, i))
  }

  ghost predicate Unrepeated(s: State) {
    && Once(s.primary) && Unstarted(s.primary, |s.workers|)
    && forall w :: 0 <= w < |s.workers| ==> Fresh(s.primary, w, s.workers[w])
  }

  lemma FewerIdsFresh(p: Primary, q: Primary, w: nat, k: Worker)
    requires Fresh(p, w, k) && forall id :: Unused(p, id) ==> Unused(q, id)
    ensures Fresh(q, w, k)
  {
  }

  lemma FlushedFresh(p: Primary, w: nat, k: Worker, throws: bool)
    requires Fresh(p, w, k)
    ensures Fresh(p, w, Flushed(k, throws))
  {
  }

  lemma ConfirmedFresh(p: Primary, w: nat, k: Worker, id: Id)
    requires Fresh(p, w, k)
    ensures Fresh(p, w, Confirming(k, id))
  {
  }

  lemma FlushFresh(p: Primary, w: nat, k: Worker, id: Id, throws: bool)
    requires Fresh(p, w, k)
    ensures Fresh(p, w, Flushed(k, throws)) && Fresh(p, w, Acknowledged(k, id, throws))
  {
    FlushedFresh(p, w, k, throws);
    ConfirmedFresh(p, w, Flushed(k, throws), id);
  }

  /** A step of the primary that makes no new ids. */
  lemma PrimaryUnrepeated(s: State, q: Primary)
    requires Unrepeated(s) && Once(q) && forall id :: Unused(s.primary, id) ==> Unused(q, id)
    ensures Unrepeated(s.(primary := q))
  {
    forall w | 0 <= w < |s.workers|
      ensures Fresh(q, w, s.workers[w])
    {
      FewerIdsFresh(s.primary, q, w, s.workers[w]);
    }
  }

  /** The ids of a message, if it is a request, become known to the primary; no others do. */
  lemma HandledOnce(p: Primary, w: nat, m: Message)
    requires Once(p) && (m.SnapshotRequest? ==> Unused(p, m.id))
    ensures Once(Handled(p, w, m))
    ensures forall id :: Unused(p, id) && (m.SnapshotRequest? ==> id != m.id) ==> Unused(Handled(p, w, m), id)
  {
    match m {
      case Batch(_) =>
      case SnapshotRequest(id) => RequestedOnce(p, id);
      case FlushResponse(id, mark) =>
        var i := Position(p.snapshots, id);
        if i < |p.snapshots| {
          var o := p.snapshots[i];
          SettledOnce(p, i, o.(awaiting := o.awaiting - {w}, acks := o.acks[w := mark]));
        }
    }
  }

  /** After its first message is handled, the rest of a channel is still fresh. */
  lemma PoppedFresh(p: Primary, q: Primary, w: nat, k: Worker)
    requires k.up != [] && Fresh(p, w, k)
    requires forall id :: Unused(p, id) && (k.up[0].SnapshotRequest? ==> id != k.up[0].id) ==> Unused(q, id)
    ensures Fresh(q, w, k.(up := k.up[1..]))
  {
    assert forall i :: 0 <= i < |k.up[1..]| ==> k.up[1..][i] == k.up[i + 1];
  }

  /** Another worker's channel does not hold the request that was handled. */
  lemma OtherFresh(p: Primary, q: Primary, w: nat, m: Message, v: nat, k: Worker)
    requires v != w && Fresh(p, v, k) && (m.SnapshotRequest? ==> m.id.worker == w)
    requires forall id :: Unused(p, id) && (m.SnapshotRequest? ==> id != m.id) ==> Unused(q, id)
    ensures Fresh(q, v, k)
  {
  }

  lemma ToldFresh(p: Primary, w: nat, k: Worker, down: seq<Id>)
    requires Fresh(p, w, k)
    ensures Fresh(p, w, k.(down := down))
  {
  }

  lemma ReceiveFresh(s: State, w: nat, v: nat)
    requires Unrepeated(s) && Enabled(s, Receive(w)) && v < |s.workers|
    ensures var t := Apply(s, Receive(w)); Fresh(t.primary, v, t.workers[v])
  {
    var p, k, m := s.primary, s.workers[w], s.workers[w].up[0];
    var q := Handled(p, w, m);
    assert Fresh(p, w, k) && Fresh(p, v, s.workers[v]);
    HandledOnce(p, w, m);
    var t := Apply(s, Receive(w));
    if v == w {
      PoppedFresh(p, q, w, k);
      ToldFresh(q, v, k.(up := k.up[1..]), t.workers[v].down);
    } else {
      OtherFresh(p, q, w, m, v, s.workers[v]);
      ToldFresh(q, v, s.workers[v], t.workers[v].down);
    }
  }

  lemma ReceiveUnrepeated(s: State, w: nat)
    requires Unrepeated(s) && Enabled(s, Receive(w))
    ensures Unrepeated(Apply(s, Receive(w)))
  {
    assert Fresh(s.primary, w, s.workers[w]);
    HandledOnce(s.primary, w, s.workers[w].up[0]);
    var t := Apply(s, Receive(w));
    forall v | 0 <= v < |t.workers|
      ensures Fresh(t.primary, v, t.workers[v])
    {
      ReceiveFresh(s, w, v);
    }
  }

  lemma WorkerUnrepeated(s: State, w: nat, k: Worker, log: seq<Call>, lost: multiset<Call>)
    requires Unrepeated(s) && w < |s.workers| && Fresh(s.primary, w, k)
    ensures Unrepeated(s.(workers := s.workers[w := k], log := log, lost := lost))
  {
  }

  lemma RequestFresh(p: Primary, w: nat, k: Worker)
    requires Fresh(p, w, k)
    ensures Fresh(p, w, k.(asked := k.asked + 1, up := k.up + [SnapshotRequest(Id(w, k.asked + 1))]))
  {
    assert Unused(p, Id(w, k.asked + 1));
  }

  lemma CrashFresh(p: Primary, w: nat, k: Worker, delivered: nat)
    requires Fresh(p, w, k) && delivered <= |k.up|
    ensures Fresh(p, w, k.(alive := false, pending := [], up := k.up[..delivered]))
  {
  }

  lemma StartUnrepeated(s: State)
    requires Unrepeated(s)
    ensures Unrepeated(Apply(s, Start))
  {
    PrimaryUnrepeated(s, Apply(s, Start).primary);
  }

  lemma WorkerStepUnrepeated(s: State, step: Step)
    requires Unrepeated(s) && Enabled(s, step)
    requires step.Record? || step.Flush? || step.RequestSnapshot? || step.AnswerFlush? || step.Crash?
    ensures Unrepeated(Apply(s, step))
  {
    var p, k, t := s.primary, s.workers[step.w], Apply(s, step);
    assert Fresh(p, step.w, k);
    match step {
      case Record(w, call) =>
      case Flush(w, throws) => FlushFresh(p, w, k, Id(w, 0), throws);
      case RequestSnapshot(w) => RequestFresh(p, w, k);
      case AnswerFlush(w, throws) =>
        ToldFresh(p, w, k, k.down[1..]);
        FlushFresh(p, w, k.(down := k.down[1..]), k.down[0], throws);
      case Crash(w, delivered) => CrashFresh(p, w, k, delivered);
    }
    WorkerUnrepeated(s, step.w, t.workers[step.w], t.log, t.lost);
  }

  lemma UnrepeatedKept(s: State, step: Step)
    requires Unrepeated(s) && Enabled(s, step)
    ensures Unrepeated(Apply(s, step))
  {
    match step
    case Start => StartUnrepeated(s);
    case Receive(w) => ReceiveUnrepeated(s, w);
    case GiveUp(id) =>
      CompletedOnce(s.primary, Position(s.primary.snapshots, id));
      PrimaryUnrepeated(s, Apply(s, step).primary);
    case Disconnect(w) =>
      PrimaryUnrepeated(s, Apply(s, step).primary);
    case Exit(w) =>
      ExitOnce(s.primary, w);
      PrimaryUnrepeated(s, Apply(s, step).primary);
    case Shutdown =>
      PrimaryUnrepeated(s, Apply(s, step).primary);
    case _ => WorkerStepUnrepeated(s, step);
  }

  lemma ExitOnce(p: Primary, w: nat)
    requires Once(p)
    ensures var q := Removed(p.(reachable := p.reachable - {w}, exited := p.exited + {w}), w, 0);
            Once(q) && forall id :: Unused(p, id) ==> Unused(q, id)
  {
    var q := p.(reachable := p.reachable - {w}, exited := p.exited + {w});
    assert forall id :: Unused(p, id) ==> Unused(q, id);
    RemovedOnce(q, w, 0);
  }

  // ---- what becomes of pending snapshots ----

  /** The pending snapshots that still await somebody when `w` is struck off. */
  function StillAwaited(snapshots: seq<Pending>, w: nat): seq<Pending> {
    if snapshots == [] then []
    else
      var s := snapshots[0].(awaiting := snapshots[0].awaiting - {w});
      (if s.awaiting == {} then [] else [s]) + StillAwaited(snapshots[1..], w)
  }

  /** The responses to the others whose requester is reachable, each with all batches so far. */
  function Released(snapshots: seq<Pending>, w: nat, reachable: set<nat>, batches: nat): seq<Answer> {
    if snapshots == [] then []
    else
      var s := snapshots[0];
      (if s.awaiting <= {w} && s.id.worker in reachable then [Answer(s.id, s.flushing, {}, s.acks, batches)] else [])
      + Released(snapshots[1..], w, reachable, batches)
  }

  lemma {:induction false} StillAwaitedExactly(snapshots: seq<Pending>, w: nat, s: Pending)
    ensures s in StillAwaited(snapshots, w)
       <==> s.awaiting != {} && exists o :: o in snapshots && s == o.(awaiting := o.awaiting - {w})
  {
    if snapshots != [] {
      StillAwaitedExactly(snapshots[1..], w, s);
      assert forall o :: o in snapshots <==> o == snapshots[0] || o in snapshots[1..];
    }
  }

  lemma {:induction false} ReleasedExactly(snapshots: seq<Pending>, w: nat, reachable: set<nat>, batches: nat,
                                           a: Answer)
    ensures a in Released(snapshots, w, reachable, batches)
       <==> exists o :: o in snapshots && o.awaiting <= {w} && o.id.worker in reachable
                        && a == Answer(o.id, o.flushing, {}, o.acks, batches)
  {
    if snapshots != [] {
      ReleasedExactly(snapshots[1..], w, reachable, batches, a);
      assert forall o :: o in snapshots <==> o == snapshots[0] || o in snapshots[1..];
    }
  }

  /** The loop that deletes as it goes is a filter. */
  lemma {:induction false} RemovedIsFilter(p: Primary, w: nat, i: nat)
    requires i <= |p.snapshots|
    ensures Removed(p, w, i)
         == p.(snapshots := p.snapshots[..i] + StillAwaited(p.snapshots[i..], w),
               answers := p.answers + Released(p.snapshots[i..], w, p.reachable, |p.merged|))
    decreases |p.snapshots| - i
  {
    if i < |p.snapshots| {
      var s := p.snapshots[i].(awaiting := p.snapshots[i].awaiting - {w});
      if s.awaiting == {} {
        FilteredOut(p, w, i, s);
      } else {
        FilteredIn(p, w, i, s);
      }
    } else {
      assert p.snapshots[..i] + [] == p.snapshots;
      assert p.answers + [] == p.answers;
    }
  }

  lemma {:induction false} FilteredOut(p: Primary, w: nat, i: nat, s: Pending)
    requires i < |p.snapshots| && s == p.snapshots[i].(awaiting := p.snapshots[i].awaiting - {w}) && s.awaiting == {}
    ensures Removed(p, w, i)
         == p.(snapshots := p.snapshots[..i] + StillAwaited(p.snapshots[i..], w),
               answers := p.answers + Released(p.snapshots[i..], w, p.reachable, |p.merged|))
    decreases |p.snapshots| - i, 0
  {
    var q, rest := Settled(p, i, s), p.snapshots[i..];
    var u := p.snapshots[i := s];
    assert q.snapshots == u[..i] + u[i + 1..];
    assert q.snapshots[..i] == p.snapshots[..i] && q.snapshots[i..] == rest[1..];
    RemovedIsFilter(q, w, i);
    assert StillAwaited(rest, w) == [] + StillAwaited(rest[1..], w);
    assert p.snapshots[i].awaiting <= {w};
    var one := if s.id.worker in p.reachable then [Answer(s.id, s.flushing, {}, s.acks, |p.merged|)] else [];
    assert q.answers == p.answers + one;
    var more := Released(rest[1..], w, p.reachable, |p.merged|);
    assert p.answers + one + more == p.answers + (one + more);
  }

  lemma {:induction false} FilteredIn(p: Primary, w: nat, i: nat, s: Pending)
    requires i < |p.snapshots| && s == p.snapshots[i].(awaiting := p.snapshots[i].awaiting - {w}) && s.awaiting != {}
    ensures Removed(p, w, i)
         == p.(snapshots := p.snapshots[..i] + StillAwaited(p.snapshots[i..], w),
               answers := p.answers + Released(p.snapshots[i..], w, p.reachable, |p.merged|))
    decreases |p.snapshots| - i, 0
  {
    var q, rest := Settled(p, i, s), p.snapshots[i..];
    assert q.snapshots[..i + 1] == p.snapshots[..i] + [s] && q.snapshots[i + 1..] == rest[1..];
    RemovedIsFilter(q, w, i + 1);
    var more := StillAwaited(rest[1..], w);
    assert p.snapshots[..i] + [s] + more == p.snapshots[..i] + ([s] + more);
    assert !(p.snapshots[i].awaiting <= {w});
    assert Released(rest, w, p.reachable, |p.merged|) == [] + Released(rest[1..], w, p.reachable, |p.merged|);
  }

  /** What is left and what is answered once `w` is struck off everywhere: no pending snapshot awaits
      it or nobody; those that await others stay; those that awaited nobody else are gone, answered
      with all batches so far when their requester is reachable; and nothing else changes. */
  ghost predicate StruckOff(p: Primary, q: Primary, w: nat) {
    && q.merged == p.merged && q.reachable == p.reachable && q.exited == p.exited
    && (forall s :: s in q.snapshots
               <==> s.awaiting != {} && exists o :: o in p.snapshots && s == o.(awaiting := o.awaiting - {w}))
    && |q.answers| >= |p.answers| && q.answers[..|p.answers|] == p.answers
    && (forall a :: a in q.answers[|p.answers|..]
               <==> exists o :: o in p.snapshots && o.awaiting <= {w} && o.id.worker in p.reachable
                                && a == Answer(o.id, o.flushing, {}, o.acks, |p.merged|))
  }

  lemma RemovedStrikesOff(p: Primary, w: nat)
    ensures StruckOff(p, Removed(p, w, 0), w)
  {
    var q, more := Removed(p, w, 0), Released(p.snapshots, w, p.reachable, |p.merged|);
    RemovedIsFilter(p, w, 0);
    assert p.snapshots[0..] == p.snapshots && p.snapshots[..0] + StillAwaited(p.snapshots, w) == q.snapshots;
    assert q.answers[|p.answers|..] == more;
    forall s
      ensures s in q.snapshots
         <==> s.awaiting != {} && exists o :: o in p.snapshots && s == o.(awaiting := o.awaiting - {w})
    {
      StillAwaitedExactly(p.snapshots, w, s);
    }
    forall a
      ensures a in more <==> exists o :: o in p.snapshots && o.awaiting <= {w} && o.id.worker in p.reachable
                                         && a == Answer(o.id, o.flushing, {}, o.acks, |p.merged|)
    {
      ReleasedExactly(p.snapshots, w, p.reachable, |p.merged|, a);
    }
  }

  /** An acknowledgement of `w` for one request: its snapshot awaits `w` no more and keeps the mark, or
      it is gone when `w` was the last, answered when its requester is reachable. */
  ghost predicate Acknowledges(p: Primary, q: Primary, w: nat, id: Id, mark: Mark) {
    && q.merged == p.merged && q.reachable == p.reachable && q.exited == p.exited
    && (forall s :: s in q.snapshots
               <==> || (s in p.snapshots && s.id != id)
                    || (&& s.awaiting != {}
                        && exists o :: o in p.snapshots && o.id == id
                                       && s == Pending(id, o.flushing, o.awaiting - {w}, o.acks[w := mark])))
    && (forall o :: o in p.snapshots && o.id == id ==>
          q.answers == p.answers + if o.awaiting <= {w} && id.worker in p.reachable
                                   then [Answer(id, o.flushing, {}, o.acks[w := mark], |p.merged|)] else [])
    && ((forall o :: o in p.snapshots ==> o.id != id) ==> q == p)
  }

  predicate DistinctIds(snapshots: seq<Pending>) {
    forall i, j :: 0 <= i < j < |snapshots| ==> snapshots[i].id != snapshots[j].id
  }

  lemma ConfirmedAcknowledges(p: Primary, w: nat, id: Id, mark: Mark)
    requires DistinctIds(p.snapshots)
    ensures Acknowledges(p, Confirmed(p, w, id, mark), w, id, mark)
  {
    var q, i := Confirmed(p, w, id, mark), Position(p.snapshots, id);
    if i < |p.snapshots| {
      var o := p.snapshots[i];
      var s := o.(awaiting := o.awaiting - {w}, acks := o.acks[w := mark]);
      assert s == Pending(id, o.flushing, o.awaiting - {w}, o.acks[w := mark]);
      OneOfItsId(p.snapshots, i);
      if s.awaiting == {} {
        assert o.awaiting <= {w};
        WithoutPosition(p.snapshots[i := s], p.snapshots, i, id);
      } else {
        assert !(o.awaiting <= {w}) && q.answers == p.answers + [];
        ReplacedPosition(p.snapshots, i, s);
      }
    } else {
      assert q == p;
    }
  }

  lemma OneOfItsId(snapshots: seq<Pending>, i: nat)
    requires i < |snapshots| && DistinctIds(snapshots)
    ensures forall o :: o in snapshots && o.id == snapshots[i].id ==> o == snapshots[i]
  {
  }

  lemma ReplacedPosition(snapshots: seq<Pending>, i: nat, s: Pending)
    requires i < |snapshots| && DistinctIds(snapshots) && s.id == snapshots[i].id
    ensures forall o :: o in snapshots[i := s] <==> (o in snapshots && o.id != s.id) || o == s
  {
    var u := snapshots[i := s];
    assert u[i] == s;
    forall o | o in snapshots && o.id != s.id
      ensures o in u
    {
      var k :| 0 <= k < |snapshots| && snapshots[k] == o;
      assert u[k] == o;
    }
  }

  lemma WithoutPosition(u: seq<Pending>, snapshots: seq<Pending>, i: nat, id: Id)
    requires i < |snapshots| == |u| && DistinctIds(snapshots)
    requires snapshots[i].id == id && forall k :: 0 <= k < |u| && k != i ==> u[k] == snapshots[k]
    ensures forall o :: o in u[..i] + u[i + 1..] <==> o in snapshots && o.id != id
  {
    var rest := u[..i] + u[i + 1..];
    Rest(u, i);
    forall o | o in snapshots && o.id != id
      ensures o in rest
    {
      var k :| 0 <= k < |snapshots| && snapshots[k] == o;
      assert rest[if k < i then k else k - 1] == o;
    }
  }

  /** A request makes one new snapshot that awaits all reachable workers, or nothing when there is
      none, as its own sender is not reachable then. */
  lemma RequestedExactly(p: Primary, id: Id, s: Pending)
    requires DistinctIds(p.snapshots)
    ensures var q := Requested(p, id);
            && q.answers == p.answers
            && (s in q.snapshots
                <==> if p.reachable == {} then s in p.snapshots
                     else (s in p.snapshots && s.id != id) || s == Pending(id, p.reachable, p.reachable, map[]))
  {
    var i, one := Position(p.snapshots, id), Pending(id, p.reachable, p.reachable, map[]);
    if p.reachable != {} && i < |p.snapshots| {
      ReplacedPosition(p.snapshots, i, one);
    }
  }

  /** Every pending snapshot awaits somebody, and nobody who has exited or acknowledged; whoever has
      exited is not reachable and will not be again. */
  predicate Waits(s: Pending, exited: set<nat>) {
    s.awaiting != {} && s.awaiting !! exited && s.awaiting !! s.acks.Keys && s.awaiting <= s.flushing
  }

  ghost predicate Awaited(p: Primary, n: nat) {
    && (forall s :: s in p.snapshots ==> Waits(s, p.exited))
    && p.reachable !! p.exited && forall w :: w in p.exited || w in p.reachable ==> w < n
  }

  lemma ConfirmedAwaited(p: Primary, n: nat, w: nat, id: Id, mark: Mark)
    requires Awaited(p, n) && Once(p)
    ensures Awaited(Confirmed(p, w, id, mark), n)
  {
    ConfirmedAcknowledges(p, w, id, mark);
    SnapshotsAwaited(p, Confirmed(p, w, id, mark), n, w, id, mark);
  }

  lemma SnapshotsAwaited(p: Primary, q: Primary, n: nat, w: nat, id: Id, mark: Mark)
    requires Awaited(p, n) && Acknowledges(p, q, w, id, mark)
    ensures Awaited(q, n)
  {
    forall s | s in q.snapshots
      ensures Waits(s, p.exited)
    {
      var o := SnapshotBefore(p, q, w, id, mark, s);
      if s != o {
        AcknowledgedWaits(o, s, p.exited, w, id, mark);
      }
    }
  }

  lemma SnapshotBefore(p: Primary, q: Primary, w: nat, id: Id, mark: Mark, s: Pending) returns (o: Pending)
    requires Acknowledges(p, q, w, id, mark) && s in q.snapshots
    ensures o in p.snapshots
    ensures s == o || (s.awaiting != {} && s == Pending(id, o.flushing, o.awaiting - {w}, o.acks[w := mark]))
  {
    if s in p.snapshots && s.id != id {
      o := s;
    } else {
      o :| o in p.snapshots && o.id == id && s == Pending(id, o.flushing, o.awaiting - {w}, o.acks[w := mark]);
    }
  }

  lemma AcknowledgedWaits(o: Pending, s: Pending, exited: set<nat>, w: nat, id: Id, mark: Mark)
    requires Waits(o, exited) && s == Pending(id, o.flushing, o.awaiting - {w}, o.acks[w := mark]) && s.awaiting != {}
    ensures Waits(s, exited)
  {
  }

  lemma HandledAwaited(p: Primary, n: nat, w: nat, m: Message)
    requires Awaited(p, n) && Once(p)
    ensures Awaited(Handled(p, w, m), n)
  {
    match m {
      case Batch(_) =>
      case SnapshotRequest(id) =>
        forall s | s in Requested(p, id).snapshots
          ensures Waits(s, p.exited)
        {
          RequestedExactly(p, id, s);
        }
      case FlushResponse(id, mark) => ConfirmedAwaited(p, n, w, id, mark);
    }
  }

  lemma ExitAwaited(p: Primary, n: nat, w: nat)
    requires Awaited(p, n) && w < n
    ensures Awaited(Removed(p.(reachable := p.reachable - {w}, exited := p.exited + {w}), w, 0), n)
  {
    var left := p.(reachable := p.reachable - {w}, exited := p.exited + {w});
    RemovedStrikesOff(left, w);
    forall s | s in Removed(left, w, 0).snapshots
      ensures Waits(s, left.exited)
    {
      var o :| o in left.snapshots && s == o.(awaiting := o.awaiting - {w});
    }
  }

  lemma AwaitedKept(s: State, step: Step)
    requires Awaited(s.primary, |s.workers|) && Once(s.primary) && Enabled(s, step)
    ensures Awaited(Apply(s, step).primary, |Apply(s, step).workers|)
  {
    match step
    case Receive(w) => HandledAwaited(s.primary, |s.workers|, w, s.workers[w].up[0]);
    case Exit(w) => ExitAwaited(s.primary, |s.workers|, w);
    case GiveUp(id) => Rest(s.primary.snapshots, Position(s.primary.snapshots, id));
    case _ =>
  }

  // ---- a response contains what its acknowledgements vouch for ----

  /** Every asked worker is awaited, has acknowledged, or has exited; and what a worker had handed
      to its channel when it acknowledged is merged. */
  predicate Vouched(flushing: set<nat>, awaiting: set<nat>, acks: map<nat, Mark>, exited: set<nat>, merged: seq<Sent>) {
    && flushing <= awaiting + acks.Keys + exited
    && (forall w :: w in acks ==> 0 <= acks[w].sent <= |HandledBy(merged, w)|)
  }

  predicate PendingOk(p: Primary, s: Pending) {
    Vouched(s.flushing, s.awaiting, s.acks, p.exited, p.merged)
  }

  predicate AnswerOk(p: Primary, a: Answer) {
    a.batches <= |p.merged| && Vouched(a.flushing, a.awaiting, a.acks, p.exited, p.merged[..a.batches])
  }

  predicate PrimaryOk(p: Primary) {
    && (forall i :: 0 <= i < |p.snapshots| ==> PendingOk(p, p.snapshots[i]))
    && (forall i :: 0 <= i < |p.answers| ==> AnswerOk(p, p.answers[i]))
  }

  lemma CompletedOk(p: Primary, i: nat)
    requires PrimaryOk(p) && i < |p.snapshots|
    ensures PrimaryOk(Completed(p, i))
  {
    var q := Completed(p, i);
    assert p.merged[..|p.merged|] == p.merged;
    Rest(p.snapshots, i);
    assert PendingOk(p, p.snapshots[i]);
    forall k | 0 <= k < |q.answers|
      ensures AnswerOk(q, q.answers[k])
    {
      assert k < |p.answers| ==> AnswerOk(p, q.answers[k]);
    }
  }

  lemma SettledOk(p: Primary, i: nat, s: Pending)
    requires PrimaryOk(p) && i < |p.snapshots| && PendingOk(p, s)
    ensures PrimaryOk(Settled(p, i, s))
  {
    var q := p.(snapshots := p.snapshots[i := s]);
    forall k | 0 <= k < |q.snapshots|
      ensures PendingOk(q, q.snapshots[k])
    {
      assert PendingOk(p, p.snapshots[k]);
    }
    forall k | 0 <= k < |q.answers|
      ensures AnswerOk(q, q.answers[k])
    {
      assert AnswerOk(p, p.answers[k]);
    }
    if s.awaiting == {} {
      CompletedOk(q, i);
    }
  }

  lemma {:induction false} RemovedOk(p: Primary, w: nat, i: nat)
    requires PrimaryOk(p) && w in p.exited
    ensures PrimaryOk(Removed(p, w, i))
    decreases |p.snapshots| - i
  {
    if i < |p.snapshots| {
      var s := p.snapshots[i].(awaiting := p.snapshots[i].awaiting - {w});
      assert PendingOk(p, p.snapshots[i]);
      SettledOk(p, i, s);
      RemovedOk(Settled(p, i, s), w, if s.awaiting == {} then i else i + 1);
    }
  }

  lemma RequestedOk(p: Primary, id: Id)
    requires PrimaryOk(p)
    ensures PrimaryOk(Requested(p, id))
  {
    var q, s := Requested(p, id), Pending(id, p.reachable, p.reachable, map[]);
    assert p.merged[..|p.merged|] == p.merged;
    assert PendingOk(p, s);
    forall k | 0 <= k < |q.snapshots|
      ensures PendingOk(q, q.snapshots[k])
    {
      assert q.snapshots[k] == s
          || (k < |p.snapshots| && q.snapshots[k] == p.snapshots[k] && PendingOk(p, p.snapshots[k]));
    }
    forall k | 0 <= k < |q.answers|
      ensures AnswerOk(q, q.answers[k])
    {
      assert k < |p.answers| ==> AnswerOk(p, q.answers[k]);
    }
  }

  lemma MergedOk(p: Primary, x: Sent)
    requires PrimaryOk(p)
    ensures PrimaryOk(p.(merged := p.merged + [x]))
  {
    var q := p.(merged := p.merged + [x]);
    forall k | 0 <= k < |q.snapshots|
      ensures PendingOk(q, q.snapshots[k])
    {
      var s := p.snapshots[k];
      assert PendingOk(p, s);
      forall w | w in s.acks
        ensures 0 <= s.acks[w].sent <= |HandledBy(q.merged, w)|
      {
        HandledPush(p.merged, x, w);
      }
    }
    forall k | 0 <= k < |q.answers|
      ensures AnswerOk(q, q.answers[k])
    {
      assert AnswerOk(p, p.answers[k]);
      assert q.merged[..q.answers[k].batches] == p.merged[..q.answers[k].batches];
    }
  }

  lemma ConfirmedOk(p: Primary, w: nat, id: Id, mark: Mark)
    requires PrimaryOk(p) && 0 <= mark.sent <= |HandledBy(p.merged, w)|
    ensures PrimaryOk(Confirmed(p, w, id, mark))
  {
    var i := Position(p.snapshots, id);
    if i < |p.snapshots| {
      var s := p.snapshots[i];
      assert PendingOk(p, s);
      SettledOk(p, i, s.(awaiting := s.awaiting - {w}, acks := s.acks[w := mark]));
    }
  }

  /** When an acknowledgement is handled, exactly what its worker had sent before it is merged. */
  predicate MarksHold(up: seq<Message>, handled: seq<Call>) {
    forall i :: 0 <= i < |up| && up[i].FlushResponse? ==> up[i].mark.sent == |handled| + |Transit(up[..i])|
  }

  lemma MarksPush(up: seq<Message>, handled: seq<Call>, m: Message)
    requires MarksHold(up, handled) && (m.FlushResponse? ==> m.mark.sent == |handled| + |Transit(up)|)
    ensures MarksHold(up + [m], handled)
  {
    forall i | 0 <= i < |up + [m]|
      ensures (up + [m])[..i] == if i < |up| then up[..i] else up
    {
    }
  }

  lemma MarksPop(up: seq<Message>, handled: seq<Call>)
    requires up != [] && MarksHold(up, handled)
    ensures MarksHold(up[1..], handled + if up[0].Batch? then up[0].calls else [])
    ensures up[0].FlushResponse? ==> up[0].mark.sent == |handled|
  {
    assert up[..0] == [];
    forall i | 0 <= i < |up[1..]| && up[1..][i].FlushResponse?
      ensures up[1..][i].mark.sent
           == |handled + if up[0].Batch? then up[0].calls else []| + |Transit(up[1..][..i])|
    {
      TransitPop(up[..i + 1]);
      assert up[..i + 1][1..] == up[1..][..i];
      assert up[i + 1].mark.sent == |handled| + |Transit(up[..i + 1])|;
    }
  }

  lemma MarksCut(up: seq<Message>, handled: seq<Call>, n: nat)
    requires n <= |up| && MarksHold(up, handled)
    ensures MarksHold(up[..n], handled)
  {
    forall i | 0 <= i < n
      ensures up[..n][..i] == up[..i]
    {
    }
  }

  lemma MarksConfirm(k: Worker, handled: seq<Call>, id: Id)
    requires k.alive && Accounted(k, handled) && MarksHold(k.up, handled)
    ensures MarksHold(Confirming(k, id).up, handled)
  {
    MarksPush(k.up, handled, FlushResponse(id, Mark(|k.recorded|, |k.recorded| - |k.pending|)));
  }

  lemma MarksFlush(k: Worker, handled: seq<Call>, id: Id, throws: bool)
    requires k.alive && Accounted(k, handled) && MarksHold(k.up, handled)
    ensures MarksHold(Flushed(k, throws).up, handled) && MarksHold(Acknowledged(k, id, throws).up, handled)
  {
    MarksPush(k.up, handled, Batch(k.pending));
    FlushAccounted(k, handled, throws);
    MarksConfirm(Flushed(k, throws), handled, id);
  }

  ghost predicate Marked(s: State) {
    && PrimaryOk(s.primary)
    && (forall w :: 0 <= w < |s.workers| ==> MarksHold(s.workers[w].up, HandledBy(s.primary.merged, w)))
  }

  ghost predicate Sound(s: State) {
    Conserved(s) && Marked(s)
  }

  lemma HandledMessageOk(p: Primary, w: nat, m: Message)
    requires PrimaryOk(p) && (m.FlushResponse? ==> 0 <= m.mark.sent <= |HandledBy(p.merged, w)|)
    ensures PrimaryOk(Handled(p, w, m))
  {
    match m
    case Batch(calls) => MergedOk(p, Sent(w, calls));
    case SnapshotRequest(id) => RequestedOk(p, id);
    case FlushResponse(id, mark) => ConfirmedOk(p, w, id, mark);
  }

  lemma ReceivedUp(s: State, w: nat, v: nat)
    requires Enabled(s, Receive(w)) && v < |s.workers|
    ensures var t := Apply(s, Receive(w));
            && |t.workers| == |s.workers|
            && t.workers[v].up == (if v == w then s.workers[v].up[1..] else s.workers[v].up)
            && t.primary == Handled(s.primary, w, s.workers[w].up[0])
  {
  }

  /** What a channel holds, and what is merged of its worker, after the primary handled a message. */
  lemma ReceivedChannel(s: State, w: nat, v: nat)
    requires Enabled(s, Receive(w)) && v < |s.workers|
    ensures var t, m := Apply(s, Receive(w)), s.workers[w].up[0];
            && |t.workers| == |s.workers|
            && t.workers[v].up == (if v == w then s.workers[v].up[1..] else s.workers[v].up)
            && HandledBy(t.primary.merged, v)
               == HandledBy(s.primary.merged, v) + if v == w && m.Batch? then m.calls else []
  {
    ReceivedUp(s, w, v);
    ReceivedCalls(s.primary, w, s.workers[w].up[0], v);
  }

  lemma ReceiveMarks(up: seq<Message>, handled: seq<Call>, after: seq<Message>, handled': seq<Call>, popped: bool)
    requires MarksHold(up, handled) && (popped ==> up != [])
    requires after == if popped then up[1..] else up
    requires handled' == handled + if popped && up[0].Batch? then up[0].calls else []
    ensures MarksHold(after, handled')
  {
    if popped {
      MarksPop(up, handled);
    } else {
      assert handled + [] == handled;
    }
  }

  lemma ReceiveMarked(s: State, w: nat)
    requires Marked(s) && Enabled(s, Receive(w))
    ensures Marked(Apply(s, Receive(w)))
  {
    MarksPop(s.workers[w].up, HandledBy(s.primary.merged, w));
    HandledMessageOk(s.primary, w, s.workers[w].up[0]);
    var t := Apply(s, Receive(w));
    forall v | 0 <= v < |t.workers|
      ensures MarksHold(t.workers[v].up, HandledBy(t.primary.merged, v))
    {
      ReceivedChannel(s, w, v);
      ReceiveMarks(s.workers[v].up, HandledBy(s.primary.merged, v),
                   t.workers[v].up, HandledBy(t.primary.merged, v), v == w);
    }
  }

  lemma SameAnswersOk(p: Primary, q: Primary)
    requires PrimaryOk(p) && q.merged == p.merged && q.answers == p.answers && p.exited <= q.exited
    requires q.snapshots == p.snapshots || q.snapshots == []
    ensures PrimaryOk(q)
  {
    forall k | 0 <= k < |q.snapshots|
      ensures PendingOk(q, q.snapshots[k])
    {
      assert PendingOk(p, p.snapshots[k]);
    }
    forall k | 0 <= k < |q.answers|
      ensures AnswerOk(q, q.answers[k])
    {
      assert AnswerOk(p, p.answers[k]);
    }
  }

  lemma WorkerMarked(s: State, w: nat, k: Worker, log: seq<Call>, lost: multiset<Call>)
    requires Marked(s) && w < |s.workers| && MarksHold(k.up, HandledBy(s.primary.merged, w))
    ensures Marked(s.(workers := s.workers[w := k], log := log, lost := lost))
  {
  }

  lemma PrimaryMarked(s: State, q: Primary)
    requires Marked(s) && q.merged == s.primary.merged && PrimaryOk(q)
    ensures Marked(s.(primary := q))
  {
  }

  lemma AnswerMarked(s: State, w: nat, throws: bool)
    requires Sound(s) && Enabled(s, AnswerFlush(w, throws))
    ensures Marked(Apply(s, AnswerFlush(w, throws)))
  {
    var k := s.workers[w].(down := s.workers[w].down[1..]);
    MarksFlush(k, HandledBy(s.primary.merged, w), s.workers[w].down[0], throws);
    WorkerMarked(s, w, Acknowledged(k, s.workers[w].down[0], throws), s.log, s.lost);
  }

  lemma CrashMarked(s: State, w: nat, delivered: nat)
    requires Marked(s) && Enabled(s, Crash(w, delivered))
    ensures Marked(Apply(s, Crash(w, delivered)))
  {
    var k := s.workers[w];
    MarksCut(k.up, HandledBy(s.primary.merged, w), delivered);
    WorkerMarked(s, w, k.(alive := false, pending := [], up := k.up[..delivered]), s.log,
                 Apply(s, Crash(w, delivered)).lost);
  }

  lemma FlushMarked(s: State, w: nat, throws: bool)
    requires Sound(s) && Enabled(s, Flush(w, throws))
    ensures Marked(Apply(s, Flush(w, throws)))
  {
    MarksFlush(s.workers[w], HandledBy(s.primary.merged, w), Id(w, 0), throws);
    WorkerMarked(s, w, Flushed(s.workers[w], throws), s.log, s.lost);
  }

  lemma RequestMarked(s: State, w: nat)
    requires Marked(s) && Enabled(s, RequestSnapshot(w))
    ensures Marked(Apply(s, RequestSnapshot(w)))
  {
    var k, id := s.workers[w], Id(w, s.workers[w].asked + 1);
    MarksPush(k.up, HandledBy(s.primary.merged, w), SnapshotRequest(id));
    WorkerMarked(s, w, k.(asked := k.asked + 1, up := k.up + [SnapshotRequest(id)]), s.log, s.lost);
  }

  lemma ExitOk(p: Primary, w: nat)
    requires PrimaryOk(p)
    ensures PrimaryOk(Removed(p.(reachable := p.reachable - {w}, exited := p.exited + {w}), w, 0))
  {
    var q := p.(reachable := p.reachable - {w}, exited := p.exited + {w});
    SameAnswersOk(p, q);
    RemovedOk(q, w, 0);
  }

  lemma MarkedKept(s: State, step: Step)
    requires Sound(s) && Enabled(s, step)
    ensures Marked(Apply(s, step))
  {
    match step
    case Start => SameAnswersOk(s.primary, Apply(s, Start).primary);
    case Record(w, call) =>
      var k := s.workers[w];
      WorkerMarked(s, w, k.(pending := k.pending + [call], recorded := k.recorded + [call]), s.log + [call], s.lost);
    case Flush(w, throws) => FlushMarked(s, w, throws);
    case RequestSnapshot(w) => RequestMarked(s, w);
    case AnswerFlush(w, throws) => AnswerMarked(s, w, throws);
    case Receive(w) => ReceiveMarked(s, w);
    case Crash(w, delivered) => CrashMarked(s, w, delivered);
    case GiveUp(id) =>
      CompletedOk(s.primary, Position(s.primary.snapshots, id));
      PrimaryMarked(s, Apply(s, step).primary);
    case Disconnect(w) =>
      SameAnswersOk(s.primary, Apply(s, step).primary);
      PrimaryMarked(s, Apply(s, step).primary);
    case Exit(w) =>
      ExitOk(s.primary, w);
      PrimaryMarked(s, Apply(s, step).primary);
    case Shutdown =>
      SameAnswersOk(s.primary, Apply(s, step).primary);
      PrimaryMarked(s, Apply(s, step).primary);
  }

  lemma SoundKept(s: State, step: Step)
    requires Sound(s) && Enabled(s, step)
    ensures Sound(Apply(s, step))
  {
    ConservedKept(s, step);
    MarkedKept(s, step);
  }

  // ---- over all runs ----

  lemma {:induction false} InvAlways(states: seq<State>, steps: seq<Step>, i: nat)
    requires Run(states, steps) && i < |states|
    ensures Sound(states[i]) && Unrepeated(states[i])
  {
    if i > 0 {
      InvAlways(states, steps, i - 1);
      SoundKept(states[i - 1], steps[i - 1]);
      UnrepeatedKept(states[i - 1], steps[i - 1]);
    }
  }

  /** In every run a pending snapshot awaits at least one worker, and none that has exited or has
      acknowledged it. */
  lemma {:induction false} PendingIsAwaited(states: seq<State>, steps: seq<Step>, i: nat)
    requires Run(states, steps) && i < |states|
    ensures Awaited(states[i].primary, |states[i].workers|)
  {
    if i > 0 {
      PendingIsAwaited(states, steps, i - 1);
      InvAlways(states, steps, i - 1);
      AwaitedKept(states[i - 1], steps[i - 1]);
    }
  }

  lemma {:induction false} BalancedAlways(states: seq<State>, steps: seq<Step>, i: nat, c: Call)
    requires Run(states, steps) && i < |states|
    ensures Balanced(states[i], c)
  {
    if i > 0 {
      BalancedAlways(states, steps, i - 1, c);
      BalancedKept(states[i - 1], steps[i - 1], c);
    }
  }

  /** A living worker's calls are merged in the order it recorded them, none twice and none missing
      but those in its channel and those pending. */
  lemma WorkerKeepsItsCalls(states: seq<State>, steps: seq<Step>, i: nat, w: nat)
    requires Run(states, steps) && i < |states| && w < |states[i].workers| && states[i].workers[w].alive
    ensures var k := states[i].workers[w];
            k.recorded == HandledBy(states[i].primary.merged, w) + Transit(k.up) + k.pending
  {
    InvAlways(states, steps, i);
  }

  /** Once every batch has arrived and no worker died with calls, the primary's snapshot is that of
      one collector fed all calls of all workers, for labels without NUL and no zero durations. */
  lemma ClusterIsOneCollector(states: seq<State>, steps: seq<Step>, i: nat)
    requires Run(states, steps) && i < |states| && states[i].lost == multiset{}
    requires forall w :: 0 <= w < |states[i].workers| ==>
               Transit(states[i].workers[w].up) == [] && states[i].workers[w].pending == []
    requires forall c :: c in states[i].log ==> Plain(c) && !ZeroCall(c)
    ensures var m, one := Merged(Contents(states[i].primary.merged)), Collected(states[i].log, InProcess);
            && m.created == one.created && m.redirects == one.redirects && m.misses == one.misses
            && m.counters == one.counters && forall e :: e in m.series <==> e in one.series
  {
    var s := states[i];
    var flat := Flat(Contents(s.primary.merged));
    forall c
      ensures multiset(s.log)[c] == multiset(flat)[c]
    {
      BalancedAlways(states, steps, i, c);
      SumOfNothing(HeldByEach(s.workers, c));
      assert Times(s.log, c) == multiset(s.log)[c] && Times(flat, c) == multiset(flat)[c];
    }
    MergedIsOneCollector(s.log, Contents(s.primary.merged));
  }

  /** No snapshot request is answered twice. */
  lemma AnsweredAtMostOnce(states: seq<State>, steps: seq<Step>, i: nat, a: nat, b: nat)
    requires Run(states, steps) && i < |states| && a < b < |states[i].primary.answers|
    ensures states[i].primary.answers[a].id != states[i].primary.answers[b].id
  {
    InvAlways(states, steps, i);
  }

  /** A response sums up, for every worker that acknowledged, all calls that worker had handed over
      when it did; and one that awaited nobody any more had heard of every worker it asked. */
  lemma AnswerIsComplete(states: seq<State>, steps: seq<Step>, i: nat, n: nat, w: nat)
    requires Run(states, steps) && i < |states| && n < |states[i].primary.answers| && w < |states[i].workers|
    ensures var p := states[i].primary; var a := p.answers[n];
            a.batches <= |p.merged| && (a.awaiting == {} && w in a.flushing ==> w in a.acks || w in p.exited)
    ensures var p := states[i].primary; var a := p.answers[n];
            (w in a.acks ==>
               && 0 <= a.acks[w].sent <= |states[i].workers[w].recorded|
               && states[i].workers[w].recorded[..a.acks[w].sent] <= HandledBy(p.merged[..a.batches], w))
  {
    InvAlways(states, steps, i);
    var p, k := states[i].primary, states[i].workers[w];
    var a := p.answers[n];
    assert AnswerOk(p, a);
    HandledPrefix(p.merged, a.batches, w);
    assert Accounted(k, HandledBy(p.merged, w));
  }

  // ---- where acknowledgements come from ----

  type MarkTest = (nat, Id, Mark) -> bool

  ghost predicate AcksGood(id: Id, acks: map<nat, Mark>, good: MarkTest) {
    forall v :: v in acks ==> good(v, id, acks[v])
  }

  ghost predicate PrimaryGood(p: Primary, good: MarkTest) {
    && (forall i :: 0 <= i < |p.snapshots| ==> AcksGood(p.snapshots[i].id, p.snapshots[i].acks, good))
    && (forall i :: 0 <= i < |p.answers| ==> AcksGood(p.answers[i].id, p.answers[i].acks, good))
  }

  ghost predicate UpGood(up: seq<Message>, v: nat, good: MarkTest) {
    forall i :: 0 <= i < |up| && up[i].FlushResponse? ==> good(v, up[i].id, up[i].mark)
  }

  /** All marks that are in channels, in pending snapshots and in responses pass a test. */
  ghost predicate AllGood(s: State, good: MarkTest) {
    PrimaryGood(s.primary, good) && forall v :: 0 <= v < |s.workers| ==> UpGood(s.workers[v].up, v, good)
  }

  lemma CompletedGood(p: Primary, i: nat, good: MarkTest)
    requires PrimaryGood(p, good) && i < |p.snapshots|
    ensures PrimaryGood(Completed(p, i), good)
  {
    var q := Completed(p, i);
    assert AcksGood(p.snapshots[i].id, p.snapshots[i].acks, good);
    Rest(p.snapshots, i);
  }

  lemma SettledGood(p: Primary, i: nat, s: Pending, good: MarkTest)
    requires PrimaryGood(p, good) && i < |p.snapshots| && AcksGood(s.id, s.acks, good)
    ensures PrimaryGood(Settled(p, i, s), good)
  {
    if s.awaiting == {} {
      CompletedGood(p.(snapshots := p.snapshots[i := s]), i, good);
    }
  }

  lemma {:induction false} RemovedGood(p: Primary, w: nat, i: nat, good: MarkTest)
    requires PrimaryGood(p, good)
    ensures PrimaryGood(Removed(p, w, i), good)
    decreases |p.snapshots| - i
  {
    if i < |p.snapshots| {
      var s := p.snapshots[i].(awaiting := p.snapshots[i].awaiting - {w});
      assert AcksGood(p.snapshots[i].id, p.snapshots[i].acks, good);
      SettledGood(p, i, s, good);
      RemovedGood(Settled(p, i, s), w, if s.awaiting == {} then i else i + 1, good);
    }
  }

  lemma HandledGood(p: Primary, w: nat, m: Message, good: MarkTest)
    requires PrimaryGood(p, good) && (m.FlushResponse? ==> good(w, m.id, m.mark))
    ensures PrimaryGood(Handled(p, w, m), good)
  {
    if m.FlushResponse? {
      var i := Position(p.snapshots, m.id);
      if i < |p.snapshots| {
        var s := p.snapshots[i];
        assert AcksGood(s.id, s.acks, good);
        SettledGood(p, i, s.(awaiting := s.awaiting - {w}, acks := s.acks[w := m.mark]), good);
      }
    }
  }

  function MarkAt(k: Worker, throws: bool): Mark {
    Mark(|k.recorded|, |k.recorded| - if throws then |k.pending| else 0)
  }

  /** The acknowledgement that a worker sends carries the mark of that moment: all it has recorded
      exactly when nothing stays pending, which only a send that throws can cause. */
  lemma AcknowledgedMark(k: Worker, id: Id, throws: bool)
    ensures Acknowledged(k, id, throws).pending == [] <==> k.pending == [] || !throws
    ensures var up := Acknowledged(k, id, throws).up;
            && |k.up| < |up| && up[|up| - 1] == FlushResponse(id, MarkAt(k, throws))
            && forall i :: 0 <= i < |up| - 1 && up[i].FlushResponse? ==> i < |k.up| && up[i] == k.up[i]
  {
  }

  /** A step that changes the channel of one worker only. */
  lemma OneWorkerGood(s: State, w: nat, k: Worker, good: MarkTest)
    requires AllGood(s, good) && w < |s.workers| && UpGood(k.up, w, good)
    ensures AllGood(s.(workers := s.workers[w := k]), good)
  {
  }

  lemma ReceiveGood(s: State, w: nat, good: MarkTest)
    requires AllGood(s, good) && Enabled(s, Receive(w))
    ensures AllGood(Apply(s, Receive(w)), good)
  {
    var t, up := Apply(s, Receive(w)), s.workers[w].up;
    assert UpGood(up, w, good);
    assert up[0].FlushResponse? ==> good(w, up[0].id, up[0].mark);
    HandledGood(s.primary, w, up[0], good);
    forall v | 0 <= v < |t.workers|
      ensures UpGood(t.workers[v].up, v, good)
    {
      assert UpGood(s.workers[v].up, v, good);
      assert t.workers[v].up == if v == w then up[1..] else s.workers[v].up;
    }
  }

  lemma StepGood(s: State, step: Step, good: MarkTest)
    requires AllGood(s, good) && Enabled(s, step)
    requires step.AnswerFlush? ==>
               good(step.w, s.workers[step.w].down[0], MarkAt(s.workers[step.w], step.throws))
    ensures AllGood(Apply(s, step), good)
  {
    match step
    case Flush(w, throws) =>
      OneWorkerGood(s, w, Flushed(s.workers[w], throws), good);
    case AnswerFlush(w, throws) =>
      var k := s.workers[w].(down := s.workers[w].down[1..]);
      AcknowledgedMark(k, s.workers[w].down[0], throws);
      assert UpGood(s.workers[w].up, w, good);
      OneWorkerGood(s, w, Acknowledged(k, s.workers[w].down[0], throws), good);
    case Receive(w) =>
      ReceiveGood(s, w, good);
    case GiveUp(id) =>
      CompletedGood(s.primary, Position(s.primary.snapshots, id), good);
    case Exit(w) =>
      RemovedGood(s.primary.(reachable := s.primary.reachable - {w}, exited := s.primary.exited + {w}), w, 0, good);
    case _ =>
  }

  lemma GoodWeakened(s: State, good: MarkTest, better: MarkTest)
    requires AllGood(s, good) && forall v, id, m :: good(v, id, m) ==> better(v, id, m)
    ensures AllGood(s, better)
  {
  }

  /** At step `j` of the run worker `v` answered the flush request, with this mark. */
  ghost predicate MadeAt(states: seq<State>, steps: seq<Step>, j: nat, v: nat, id: Id, m: Mark) {
    && j < |steps| && j < |states| && steps[j].AnswerFlush? && steps[j].w == v && v < |states[j].workers|
    && states[j].workers[v].down != [] && states[j].workers[v].down[0] == id
    && m == MarkAt(states[j].workers[v], steps[j].throws)
  }

  ghost predicate MadeBefore(states: seq<State>, steps: seq<Step>, i: nat, v: nat, id: Id, m: Mark) {
    exists j: nat :: j < i && MadeAt(states, steps, j, v, id, m)
  }

  ghost function MadeTest(states: seq<State>, steps: seq<Step>, i: nat): MarkTest {
    (v: nat, id: Id, m: Mark) => MadeBefore(states, steps, i, v, id, m)
  }

  lemma {:induction false} MarksAreMade(states: seq<State>, steps: seq<Step>, i: nat)
    requires Run(states, steps) && i < |states|
    ensures AllGood(states[i], MadeTest(states, steps, i))
  {
    var made := MadeTest(states, steps, i);
    if i > 0 {
      var before, step := states[i - 1], steps[i - 1];
      MarksAreMade(states, steps, i - 1);
      GoodWeakened(before, MadeTest(states, steps, i - 1), made);
      if step.AnswerFlush? {
        assert MadeAt(states, steps, i - 1, step.w, before.workers[step.w].down[0],
                      MarkAt(before.workers[step.w], step.throws));
      }
      StepGood(before, step, made);
    }
  }

  function RecordedBy(s: State, w: nat): seq<Call> {
    if w < |s.workers| then s.workers[w].recorded else []
  }

  lemma StepRecords(s: State, step: Step, w: nat)
    requires Enabled(s, step)
    ensures RecordedBy(s, w) <= RecordedBy(Apply(s, step), w)
  {
  }

  lemma NextRecords(states: seq<State>, steps: seq<Step>, i: nat, w: nat)
    requires Run(states, steps) && i < |steps|
    ensures RecordedBy(states[i], w) <= RecordedBy(states[i + 1], w)
  {
    StepRecords(states[i], steps[i], w);
  }

  lemma {:induction false} PrefixChain<T>(chain: seq<seq<T>>, j: nat, i: nat)
    requires j <= i < |chain| && forall k :: 0 <= k < |chain| - 1 ==> chain[k] <= chain[k + 1]
    ensures chain[j] <= chain[i]
    decreases i - j
  {
    if j < i {
      PrefixChain(chain, j, i - 1);
      assert chain[i - 1] <= chain[i - 1 + 1];
    }
  }

  lemma RecordedGrows(states: seq<State>, steps: seq<Step>, j: nat, i: nat, w: nat)
    requires Run(states, steps) && j <= i < |states|
    ensures RecordedBy(states[j], w) <= RecordedBy(states[i], w)
  {
    var chain := seq(|states|, k requires 0 <= k < |states| => RecordedBy(states[k], w));
    forall k | 0 <= k < |chain| - 1
      ensures chain[k] <= chain[k + 1]
    {
      NextRecords(states, steps, k, w);
    }
    PrefixChain(chain, j, i);
  }

  // ---- batches are all or nothing ----

  /** Neither what is merged of a worker nor what comes with its channel ever ends between `lo` and
      `hi` calls: a batch that goes past `lo` goes up to `hi`. */
  ghost predicate CutsClear(merged: seq<Sent>, up: seq<Message>, w: nat, lo: int, hi: int) {
    && (forall b :: 0 <= b <= |merged| ==> !(lo < |HandledBy(merged[..b], w)| < hi))
    && (forall i :: 0 <= i <= |up| ==> !(lo < |HandledBy(merged, w)| + |Transit(up[..i])| < hi))
  }

  lemma CutsSoFar(merged: seq<Sent>, up: seq<Message>, w: nat, lo: int, hi: int)
    requires lo == |HandledBy(merged, w)| + |Transit(up)|
    ensures CutsClear(merged, up, w, lo, hi)
  {
    forall b | 0 <= b <= |merged|
      ensures |HandledBy(merged[..b], w)| <= lo
    {
      HandledPrefix(merged, b, w);
    }
    forall i | 0 <= i <= |up|
      ensures |Transit(up[..i])| <= |Transit(up)|
    {
      TransitCut(up, i);
    }
  }

  lemma CutsPush(merged: seq<Sent>, up: seq<Message>, w: nat, lo: int, hi: int, m: Message)
    requires CutsClear(merged, up, w, lo, hi)
    requires m.Batch? ==> |HandledBy(merged, w)| + |Transit(up + [m])| >= hi
    ensures CutsClear(merged, up + [m], w, lo, hi)
  {
    TransitPush(up, m);
    assert up[..|up|] == up;
    forall i | 0 <= i <= |up + [m]|
      ensures (up + [m])[..i] == if i <= |up| then up[..i] else up + [m]
    {
    }
  }

  lemma CutsPop(merged: seq<Sent>, up: seq<Message>, w: nat, lo: int, hi: int)
    requires CutsClear(merged, up, w, lo, hi) && up != [] && !up[0].Batch?
    ensures CutsClear(merged, up[1..], w, lo, hi)
  {
    forall i | 0 <= i <= |up[1..]|
      ensures Transit(up[1..][..i]) == Transit(up[..i + 1])
    {
      TransitPop(up[..i + 1]);
      assert up[..i + 1][1..] == up[1..][..i];
    }
  }

  lemma SameCut(merged: seq<Sent>, up: seq<Message>, w: nat, i: nat)
    requires i < |up| && up[0].Batch?
    ensures |HandledBy(merged + [Sent(w, up[0].calls)], w)| + |Transit(up[1..][..i])|
         == |HandledBy(merged, w)| + |Transit(up[..i + 1])|
  {
    HandledPush(merged, Sent(w, up[0].calls), w);
    TransitPop(up[..i + 1]);
    assert up[..i + 1][1..] == up[1..][..i];
  }

  lemma CutsMerge(merged: seq<Sent>, up: seq<Message>, w: nat, lo: int, hi: int)
    requires CutsClear(merged, up, w, lo, hi) && up != [] && up[0].Batch?
    ensures CutsClear(merged + [Sent(w, up[0].calls)], up[1..], w, lo, hi)
  {
    var after := merged + [Sent(w, up[0].calls)];
    forall i | 0 <= i <= |up[1..]|
      ensures |HandledBy(after, w)| + |Transit(up[1..][..i])| == |HandledBy(merged, w)| + |Transit(up[..i + 1])|
    {
      SameCut(merged, up, w, i);
    }
    assert up[1..][..0] == [];
    assert !(lo < |HandledBy(after, w)| + |Transit(up[1..][..0])| < hi);
    MergedCuts(merged, Sent(w, up[0].calls), w, lo, hi);
  }

  lemma MergedCuts(merged: seq<Sent>, x: Sent, w: nat, lo: int, hi: int)
    requires forall b :: 0 <= b <= |merged| ==> !(lo < |HandledBy(merged[..b], w)| < hi)
    requires !(lo < |HandledBy(merged + [x], w)| < hi)
    ensures forall b :: 0 <= b <= |merged + [x]| ==> !(lo < |HandledBy((merged + [x])[..b], w)| < hi)
  {
    forall b | 0 <= b <= |merged + [x]|
      ensures (merged + [x])[..b] == if b <= |merged| then merged[..b] else merged + [x]
    {
    }
  }

  lemma CutsOfOthers(merged: seq<Sent>, up: seq<Message>, w: nat, lo: int, hi: int, x: Sent)
    requires CutsClear(merged, up, w, lo, hi) && x.worker != w
    ensures CutsClear(merged + [x], up, w, lo, hi)
  {
    HandledPush(merged, x, w);
    assert merged[..|merged|] == merged;
    MergedCuts(merged, x, w, lo, hi);
  }

  lemma CutsCut(merged: seq<Sent>, up: seq<Message>, w: nat, lo: int, hi: int, n: nat)
    requires CutsClear(merged, up, w, lo, hi) && n <= |up|
    ensures CutsClear(merged, up[..n], w, lo, hi)
  {
    forall i | 0 <= i <= n
      ensures up[..n][..i] == up[..i]
    {
    }
  }

  lemma FlushCuts(k: Worker, merged: seq<Sent>, w: nat, lo: int, hi: int, throws: bool)
    requires k.alive && Accounted(k, HandledBy(merged, w)) && |k.recorded| >= hi
    requires CutsClear(merged, k.up, w, lo, hi)
    ensures CutsClear(merged, Flushed(k, throws).up, w, lo, hi)
  {
    FlushAccounted(k, HandledBy(merged, w), throws);
    if Flushed(k, throws) != k {
      CutsPush(merged, k.up, w, lo, hi, Batch(k.pending));
    }
  }

  lemma AnswerCuts(k: Worker, merged: seq<Sent>, w: nat, lo: int, hi: int, id: Id, throws: bool)
    requires k.alive && Accounted(k, HandledBy(merged, w)) && |k.recorded| >= hi
    requires CutsClear(merged, k.up, w, lo, hi)
    ensures CutsClear(merged, Acknowledged(k, id, throws).up, w, lo, hi)
  {
    FlushCuts(k, merged, w, lo, hi, throws);
    ConfirmCuts(Flushed(k, throws), merged, w, lo, hi, id);
  }

  lemma ConfirmCuts(k: Worker, merged: seq<Sent>, w: nat, lo: int, hi: int, id: Id)
    requires CutsClear(merged, k.up, w, lo, hi)
    ensures CutsClear(merged, Confirming(k, id).up, w, lo, hi)
  {
    CutsPush(merged, k.up, w, lo, hi, FlushResponse(id, Mark(|k.recorded|, |k.recorded| - |k.pending|)));
  }

  lemma ReceiveCuts(s: State, v: nat, w: nat, lo: int, hi: int)
    requires Enabled(s, Receive(v)) && w < |s.workers|
    requires CutsClear(s.primary.merged, s.workers[w].up, w, lo, hi)
    ensures var t := Apply(s, Receive(v)); CutsClear(t.primary.merged, t.workers[w].up, w, lo, hi)
  {
    ReceivedChannel(s, v, w);
    var merged, m := s.primary.merged, s.workers[v].up[0];
    if v == w && m.Batch? {
      CutsMerge(merged, s.workers[w].up, w, lo, hi);
    } else if v == w {
      CutsPop(merged, s.workers[w].up, w, lo, hi);
    } else if m.Batch? {
      CutsOfOthers(merged, s.workers[w].up, w, lo, hi, Sent(v, m.calls));
    }
  }

  /** Whoever flushes later hands over all that is pending, so the gap is never split. */
  lemma CutsKept(s: State, step: Step, w: nat, lo: int, hi: int)
    requires Conserved(s) && Enabled(s, step) && w < |s.workers| && |s.workers[w].recorded| >= hi
    requires CutsClear(s.primary.merged, s.workers[w].up, w, lo, hi)
    ensures var t := Apply(s, step); w < |t.workers| && CutsClear(t.primary.merged, t.workers[w].up, w, lo, hi)
  {
    var k, merged := s.workers[w], s.primary.merged;
    match step
    case Flush(v, throws) =>
      if v == w {
        FlushCuts(k, merged, w, lo, hi, throws);
      }
    case RequestSnapshot(v) =>
      if v == w {
        CutsPush(merged, k.up, w, lo, hi, SnapshotRequest(Id(w, k.asked + 1)));
      }
    case AnswerFlush(v, throws) =>
      if v == w {
        AnswerCuts(k.(down := k.down[1..]), merged, w, lo, hi, k.down[0], throws);
      }
    case Receive(v) => ReceiveCuts(s, v, w, lo, hi);
    case Crash(v, delivered) =>
      if v == w {
        CutsCut(merged, k.up, w, lo, hi, delivered);
      }
    case _ =>
  }

  /** A worker that acknowledges has handed over what its mark says. */
  lemma AcknowledgedCuts(s: State, w: nat, throws: bool)
    requires Conserved(s) && Enabled(s, AnswerFlush(w, throws))
    ensures var t, m := Apply(s, AnswerFlush(w, throws)), MarkAt(s.workers[w], throws);
            w < |t.workers| && CutsClear(t.primary.merged, t.workers[w].up, w, m.sent, m.recorded)
  {
    var k, handled := s.workers[w].(down := s.workers[w].down[1..]), HandledBy(s.primary.merged, w);
    AcknowledgeAccounted(k, handled, s.workers[w].down[0], throws);
    var after := Acknowledged(k, s.workers[w].down[0], throws);
    CutsSoFar(s.primary.merged, after.up, w, |after.recorded| - |after.pending|, |k.recorded|);
  }

  lemma {:induction false} CutsAlways(states: seq<State>, steps: seq<Step>, j: nat, i: nat, w: nat, m: Mark)
    requires Run(states, steps) && j < i < |states| && steps[j].AnswerFlush? && steps[j].w == w
    requires m == MarkAt(states[j].workers[w], steps[j].throws)
    ensures w < |states[i].workers|
    ensures CutsClear(states[i].primary.merged, states[i].workers[w].up, w, m.sent, m.recorded)
    decreases i
  {
    if i == j + 1 {
      InvAlways(states, steps, j);
      AcknowledgedCuts(states[j], w, steps[j].throws);
    } else {
      CutsAlways(states, steps, j, i - 1, w, m);
      InvAlways(states, steps, i - 1);
      RecordedGrows(states, steps, j, i - 1, w);
      CutsKept(states[i - 1], steps[i - 1], w, m.sent, m.recorded);
    }
  }

  // ---- the barrier ----

  lemma PrefixBySize<T>(a: seq<T>, b: seq<T>, whole: seq<T>)
    requires a <= whole && b <= whole
    ensures a <= b <==> |a| <= |b|
  {
  }

  /** What is merged of a worker is the beginning of what it has recorded. */
  lemma MergedIsRecorded(states: seq<State>, steps: seq<Step>, i: nat, w: nat, n: nat)
    requires Run(states, steps) && i < |states| && w < |states[i].workers| && n <= |states[i].primary.merged|
    ensures HandledBy(states[i].primary.merged[..n], w) <= states[i].workers[w].recorded
  {
    InvAlways(states, steps, i);
    HandledPrefix(states[i].primary.merged, n, w);
    assert Accounted(states[i].workers[w], HandledBy(states[i].primary.merged, w));
  }

  /** The barrier: a worker's acknowledgement in a response was sent at some step of the run. The
      response sums up everything that worker had recorded by then exactly when its flush did not
      throw, or nothing was pending, or a batch that the worker sent afterwards is in the response
      as well: a batch takes all that is pending. */
  lemma AnswerHoldsEverythingRecorded(states: seq<State>, steps: seq<Step>, i: nat, n: nat, w: nat) returns (j: nat)
    requires Run(states, steps) && i < |states| && n < |states[i].primary.answers|
    requires w < |states[i].workers| && w in states[i].primary.answers[n].acks
    ensures j < i && MadeAt(states, steps, j, w, states[i].primary.answers[n].id, states[i].primary.answers[n].acks[w])
    ensures var p, k := states[i].primary, states[j].workers[w]; var a := p.answers[n];
            && a.batches <= |p.merged| && |HandledBy(p.merged[..a.batches], w)| >= a.acks[w].sent
            && (k.recorded <= HandledBy(p.merged[..a.batches], w)
                <==> !steps[j].throws || k.pending == [] || |HandledBy(p.merged[..a.batches], w)| > a.acks[w].sent)
  {
    var a := states[i].primary.answers[n];
    MarksAreMade(states, steps, i);
    assert AcksGood(a.id, a.acks, MadeTest(states, steps, i));
    assert MadeTest(states, steps, i)(w, a.id, a.acks[w]);
    assert MadeBefore(states, steps, i, w, a.id, a.acks[w]);
    j :| j < i && MadeAt(states, steps, j, w, a.id, a.acks[w]);
    AnswerIsComplete(states, steps, i, n, w);
    CutsAlways(states, steps, j, i, w, a.acks[w]);
    RecordedGrows(states, steps, j, i, w);
    MergedIsRecorded(states, steps, i, w, a.batches);
    PrefixBySize(states[j].workers[w].recorded, HandledBy(states[i].primary.merged[..a.batches], w),
                 states[i].workers[w].recorded);
  }

  /** The response that an acknowledgement completes sums up all batches merged so far. */
  lemma CompletedByAcknowledgement(p: Primary, w: nat, id: Id, mark: Mark)
    ensures var q := Confirmed(p, w, id, mark);
            && q.merged == p.merged && |p.answers| <= |q.answers| <= |p.answers| + 1
            && (|q.answers| > |p.answers| ==>
                  var a := q.answers[|p.answers|];
                  a.id == id && a.awaiting == {} && a.batches == |p.merged| && w in a.acks && a.acks[w] == mark)
  {
  }

  /** When the primary handles an acknowledgement, everything its worker had recorded before sending
      it is merged exactly when that flush did not throw or nothing was pending; and the response
      that the acknowledgement completes, if it does, sums up just what is merged then. */
  lemma AcknowledgementIsExact(states: seq<State>, steps: seq<Step>, i: nat, w: nat) returns (j: nat)
    requires Run(states, steps) && i < |steps| && steps[i] == Receive(w) && states[i].workers[w].up[0].FlushResponse?
    ensures var m := states[i].workers[w].up[0]; j < i && MadeAt(states, steps, j, w, m.id, m.mark)
    ensures states[j].workers[w].recorded <= HandledBy(states[i].primary.merged, w)
            <==> !steps[j].throws || states[j].workers[w].pending == []
    ensures var m, p, q := states[i].workers[w].up[0], states[i].primary, states[i + 1].primary;
            && q.merged == p.merged && |p.answers| <= |q.answers| <= |p.answers| + 1
            && (|q.answers| > |p.answers| ==>
                  var a := q.answers[|p.answers|];
                  a.id == m.id && a.awaiting == {} && a.batches == |q.merged| && w in a.acks && a.acks[w] == m.mark)
  {
    var s := states[i];
    var m := s.workers[w].up[0];
    MarksAreMade(states, steps, i);
    assert UpGood(s.workers[w].up, w, MadeTest(states, steps, i));
    assert MadeTest(states, steps, i)(w, m.id, m.mark);
    assert MadeBefore(states, steps, i, w, m.id, m.mark);
    j :| j < i && MadeAt(states, steps, j, w, m.id, m.mark);
    InvAlways(states, steps, i);
    MarksPop(s.workers[w].up, HandledBy(s.primary.merged, w));
    RecordedGrows(states, steps, j, i, w);
    assert s.primary.merged[..|s.primary.merged|] == s.primary.merged;
    MergedIsRecorded(states, steps, i, w, |s.primary.merged|);
    PrefixBySize(states[j].workers[w].recorded, HandledBy(s.primary.merged, w), s.workers[w].recorded);
    CompletedByAcknowledgement(s.primary, w, m.id, m.mark);
  }

  // ---- a response that lacks a call ----

  ghost predicate Leads(s: State, step: Step, t: State) {
    Enabled(s, step) && t == Apply(s, step)
  }

  function Alone(call: Call, pending: seq<Call>, up: seq<Message>, down: seq<Id>, asked: nat, p: Primary): State {
    State([Worker(true, pending, up, down, asked, [call])], p, [call], multiset{})
  }

  function Asking(id: Id): Primary {
    Primary([], [Pending(id, {0}, {0}, map[])], [], {0}, {})
  }

  /** One response, which awaits nobody any more, has worker 0's acknowledgement and no batch. */
  function Answered(id: Id): Primary {
    Primary([], [], [Answer(id, {0}, {}, map[0 := Mark(1, 0)], 0)], {0}, {})
  }

  lemma FirstCall(call: Call, s: State, t: State)
    requires s == State([Worker(true, [], [], [], 0, [])], NoPrimary.(reachable := {0}), [], multiset{})
    requires t == Alone(call, [call], [], [], 0, NoPrimary.(reachable := {0}))
    ensures Leads(Initial, Start, s) && Leads(s, Record(0, call), t)
  {
    assert Apply(Initial, Start).workers == s.workers && {} + {0} == {0};
    assert s.workers[0].pending + [call] == [call] && s.workers[0].recorded + [call] == [call];
    assert s.log + [call] == [call];
    assert Apply(s, Record(0, call)).workers == t.workers;
  }

  lemma FirstRequest(call: Call, id: Id, s: State, t: State)
    requires id == Id(0, 1) && s == Alone(call, [call], [], [], 0, NoPrimary.(reachable := {0}))
    requires t == Alone(call, [call], [SnapshotRequest(id)], [], 1, NoPrimary.(reachable := {0}))
    ensures Leads(s, RequestSnapshot(0), t)
  {
    assert s.workers[0].up + [SnapshotRequest(id)] == t.workers[0].up;
    assert Apply(s, RequestSnapshot(0)).workers == t.workers;
  }

  lemma FlushIsAsked(call: Call, id: Id, s: State, t: State)
    requires id == Id(0, 1) && s == Alone(call, [call], [SnapshotRequest(id)], [], 1, NoPrimary.(reachable := {0}))
    requires t == Alone(call, [call], [], [id], 1, Asking(id))
    ensures Leads(s, Receive(0), t)
  {
    assert s.workers[0].up[1..] == [] && s.workers[0].down + [id] == [id];
    assert s.primary.snapshots + t.primary.snapshots == t.primary.snapshots;
    assert Apply(s, Receive(0)).workers == t.workers;
  }

  lemma ThrownAnswer(call: Call, id: Id, s: State, t: State)
    requires s == Alone(call, [call], [], [id], 1, Asking(id))
    requires t == Alone(call, [call], [FlushResponse(id, Mark(1, 0))], [], 1, Asking(id))
    ensures Leads(s, AnswerFlush(0, true), t)
  {
    assert s.workers[0].down[1..] == [] && s.workers[0].up + t.workers[0].up == t.workers[0].up;
    assert Apply(s, AnswerFlush(0, true)).workers == t.workers;
  }

  lemma LastAcknowledgement(call: Call, id: Id, s: State, t: State)
    requires id.worker == 0 && s == Alone(call, [call], [FlushResponse(id, Mark(1, 0))], [], 1, Asking(id))
    requires t == Alone(call, [call], [], [], 1, Answered(id))
    ensures Leads(s, Receive(0), t)
  {
    assert s.workers[0].up[1..] == [];
    assert {0} - {0} == {};
    assert Apply(s, Receive(0)).workers == t.workers;
    AcknowledgedAlone(id, Mark(1, 0));
  }

  lemma AcknowledgedAlone(id: Id, mark: Mark)
    requires id.worker == 0 && mark == Mark(1, 0)
    ensures Confirmed(Asking(id), 0, id, mark) == Answered(id)
  {
    assert {0} - {0} == {};
    var p := Asking(id);
    assert p.snapshots[..0] + p.snapshots[1..] == [];
  }

  /** Any call can be missing from a response that every worker acknowledged, when the flush before
      the acknowledgement throws. */
  lemma ResponsesCanLackCalls(call: Call) returns (states: seq<State>, steps: seq<Step>)
    ensures steps == [Start, Record(0, call), RequestSnapshot(0), Receive(0), AnswerFlush(0, true), Receive(0)]
    ensures Run(states, steps)
    ensures states[6].workers == [Worker(true, [call], [], [], 1, [call])]
    ensures states[6].primary == Answered(Id(0, 1))
  {
    var id, p := Id(0, 1), NoPrimary.(reachable := {0});
    steps := [Start, Record(0, call), RequestSnapshot(0), Receive(0), AnswerFlush(0, true), Receive(0)];
    states := [Initial,
               State([Worker(true, [], [], [], 0, [])], p, [], multiset{}),
               Alone(call, [call], [], [], 0, p),
               Alone(call, [call], [SnapshotRequest(id)], [], 1, p),
               Alone(call, [call], [], [id], 1, Asking(id)),
               Alone(call, [call], [FlushResponse(id, Mark(1, 0))], [], 1, Asking(id)),
               Alone(call, [call], [], [], 1, Answered(id))];
    FirstCall(call, states[1], states[2]);
    FirstRequest(call, id, states[2], states[3]);
    FlushIsAsked(call, id, states[3], states[4]);
    ThrownAnswer(call, id, states[4], states[5]);
    LastAcknowledgement(call, id, states[5], states[6]);
    assert forall i :: 0 <= i < 6 ==> Leads(states[i], steps[i], states[i + 1]);
  }
}
