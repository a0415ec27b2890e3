/** The metrics protocol between the workers and the primary of a cluster (src/cluster-metrics.ts,
    src/cluster.ts): batches, flush requests and acknowledgements over ordered channels. Counts and
    logs of calls are kept beside the state to say what has become of each call. */
module MetricsProtocol {
  import opened Metrics

  /** A snapshot request: the worker that asks, and its own running number. */
  datatype Id = Id(worker: nat, number: nat)

  /** How many calls a worker had recorded, and how many of them it had handed to its channel, when
      it acknowledged a flush request. */
  datatype Mark = Mark(recorded: int, sent: int)

  /** Worker to primary. */
  datatype Message = Batch(calls: seq<Call>) | SnapshotRequest(id: Id) | FlushResponse(id: Id, mark: Mark)

  /** `down` holds the flush requests on their way to the worker. */
  datatype Worker = Worker(
    alive: bool,
    pending: seq<Call>,
    up: seq<Message>,
    down: seq<Id>,
    asked: nat,
    recorded: seq<Call>)

  datatype Pending = Pending(id: Id, flushing: set<nat>, awaiting: set<nat>, acks: map<nat, Mark>)

  /** A response, with the number of batches it sums up. */
  datatype Answer = Answer(id: Id, flushing: set<nat>, awaiting: set<nat>, acks: map<nat, Mark>, batches: nat)

  datatype Sent = Sent(worker: nat, calls: seq<Call>)

  datatype Primary = Primary(merged: seq<Sent>, snapshots: seq<Pending>, answers: seq<Answer>, reachable: set<nat>,
                             exited: set<nat>)

  datatype State = State(workers: seq<Worker>, primary: Primary, log: seq<Call>, lost: multiset<Call>)

  datatype Step =
    | Start
    | Record(w: nat, call: Call)
    | Flush(w: nat, throws: bool)
    | RequestSnapshot(w: nat)
    | AnswerFlush(w: nat, throws: bool)
    | Receive(w: nat)
    | GiveUp(id: Id)
    | Crash(w: nat, delivered: nat)
    | Disconnect(w: nat)
    | Exit(w: nat)
    | Shutdown

  const NoPrimary := Primary([], [], [], {}, {})

  const Initial := State([], NoPrimary, [], multiset{})

  // ---- the worker ----

  /** flush: a batch when anything is pending; a send that throws puts it back. */
  function Flushed(k: Worker, throws: bool): Worker {
    if k.pending == [] || throws then k else k.(pending := [], up := k.up + [Batch(k.pending)])
  }

  function Confirming(k: Worker, id: Id): Worker {
    k.(up := k.up + [FlushResponse(id, Mark(|k.recorded|, |k.recorded| - |k.pending|))])
  }

  /** A flush request: flush, then acknowledge. */
  function Acknowledged(k: Worker, id: Id, throws: bool): Worker {
    Confirming(Flushed(k, throws), id)
  }

  // ---- the primary ----

  /** The position of a pending snapshot, or the number of them. */
  function Position(snapshots: seq<Pending>, id: Id): (i: nat)
    ensures i <= |snapshots| && (i < |snapshots| ==> snapshots[i].id == id)
    ensures forall k :: 0 <= k < i ==> snapshots[k].id != id
  {
    if snapshots == [] then 0 else if snapshots[0].id == id then 0 else Position(snapshots[1..], id) + 1
  }

  function Respond(p: Primary, s: Pending): (q: Primary)
    ensures q.merged == p.merged && q.reachable == p.reachable && q.exited == p.exited
  {
    if s.id.worker in p.reachable
    then p.(answers := p.answers + [Answer(s.id, s.flushing, s.awaiting, s.acks, |p.merged|)]) else p
  }

  /** completeSnapshot */
  function Completed(p: Primary, i: nat): (q: Primary)
    requires i < |p.snapshots|
    ensures q.merged == p.merged && q.reachable == p.reachable && q.exited == p.exited
  {
    Respond(p.(snapshots := p.snapshots[..i] + p.snapshots[i + 1..]), p.snapshots[i])
  }

  /** requestWorkerFlushes */
  function Requested(p: Primary, id: Id): (q: Primary)
    ensures q.merged == p.merged && q.reachable == p.reachable && q.exited == p.exited
  {
    var s := Pending(id, p.reachable, p.reachable, map[]);
    if p.reachable == {} then Respond(p, s)
    else
      var i := Position(p.snapshots, id);
      p.(snapshots := if i < |p.snapshots| then p.snapshots[i := s] else p.snapshots + [s])
  }

  /** Completes a pending snapshot that awaits nobody any more. */
  function Settled(p: Primary, i: nat, s: Pending): (q: Primary)
    requires i < |p.snapshots|
    ensures q.merged == p.merged && q.reachable == p.reachable && q.exited == p.exited
  {
    var r := p.(snapshots := p.snapshots[i := s]);
    if s.awaiting == {} then Completed(r, i) else r
  }

  /** acknowledgeWorkerFlush */
  function Confirmed(p: Primary, w: nat, id: Id, mark: Mark): (q: Primary)
    ensures q.merged == p.merged && q.reachable == p.reachable && q.exited == p.exited
  {
    var i := Position(p.snapshots, id);
    if i < |p.snapshots|
    then
      var s := p.snapshots[i];
      Settled(p, i, s.(awaiting := s.awaiting - {w}, acks := s.acks[w := mark]))
    else p
  }

  /** removeWorkerFromSnapshots, from position i on. */
  function Removed(p: Primary, w: nat, i: nat): (q: Primary)
    ensures q.merged == p.merged && q.reachable == p.reachable && q.exited == p.exited
    decreases |p.snapshots| - i
  {
    if i >= |p.snapshots| then p
    else
      var s := p.snapshots[i].(awaiting := p.snapshots[i].awaiting - {w});
      Removed(Settled(p, i, s), w, if s.awaiting == {} then i else i + 1)
  }

  function Handled(p: Primary, w: nat, m: Message): Primary {
    match m
    case Batch(calls) => p.(merged := p.merged + [Sent(w, calls)])
    case SnapshotRequest(id) => Requested(p, id)
    case FlushResponse(id, mark) => Confirmed(p, w, id, mark)
  }

  /** The flush requests that handling a message sends. */
  function Asked(p: Primary, m: Message): set<nat> {
    if m.SnapshotRequest? then p.reachable else {}
  }

  // ---- runs ----

  function Transit(up: seq<Message>): seq<Call> {
    if up == [] then []
    else Transit(up[..|up| - 1]) + if up[|up| - 1].Batch? then up[|up| - 1].calls else []
  }

  ghost predicate Enabled(s: State, step: Step) {
    match step
    case Start => true
    case Record(w, _) => w < |s.workers| && s.workers[w].alive
    case Flush(w, _) => w < |s.workers| && s.workers[w].alive
    case RequestSnapshot(w) => w < |s.workers| && s.workers[w].alive
    case AnswerFlush(w, _) => w < |s.workers| && s.workers[w].alive && s.workers[w].down != []
    case Receive(w) => w < |s.workers| && s.workers[w].up != []
    case GiveUp(id) => Position(s.primary.snapshots, id) < |s.primary.snapshots|
    case Crash(w, delivered) => w < |s.workers| && s.workers[w].alive && delivered <= |s.workers[w].up|
    case Disconnect(w) => w < |s.workers| && !s.workers[w].alive
    case Exit(w) => w < |s.workers| && !s.workers[w].alive
    case Shutdown => true
  }

  function Told(workers: seq<Worker>, asked: set<nat>, m: Message): (r: seq<Worker>)
    ensures |r| == |workers|
    ensures forall w :: 0 <= w < |workers| ==>
              r[w] == if w in asked && m.SnapshotRequest? then workers[w].(down := workers[w].down + [m.id])
                      else workers[w]
  {
    seq(|workers|, w requires 0 <= w < |workers| =>
      if w in asked && m.SnapshotRequest? then workers[w].(down := workers[w].down + [m.id]) else workers[w])
  }

  ghost function Apply(s: State, step: Step): State
    requires Enabled(s, step)
  {
    match step
    case Start =>
      s.(workers := s.workers + [Worker(true, [], [], [], 0, [])],
         primary := s.primary.(reachable := s.primary.reachable + {|s.workers|}))
    case Record(w, call) =>
      var k := s.workers[w];
      s.(workers := s.workers[w := k.(pending := k.pending + [call], recorded := k.recorded + [call])],
         log := s.log + [call])
    case Flush(w, throws) =>
      s.(workers := s.workers[w := Flushed(s.workers[w], throws)])
    case RequestSnapshot(w) =>
      var k := s.workers[w];
      s.(workers := s.workers[w := k.(asked := k.asked + 1, up := k.up + [SnapshotRequest(Id(w, k.asked + 1))])])
    case AnswerFlush(w, throws) =>
      var k := s.workers[w];
      s.(workers := s.workers[w := Acknowledged(k.(down := k.down[1..]), k.down[0], throws)])
    case Receive(w) =>
      var k := s.workers[w];
      s.(workers := Told(s.workers[w := k.(up := k.up[1..])], Asked(s.primary, k.up[0]), k.up[0]),
         primary := Handled(s.primary, w, k.up[0]))
    case GiveUp(id) =>
      s.(primary := Completed(s.primary, Position(s.primary.snapshots, id)))
    case Crash(w, delivered) =>
      var k := s.workers[w];
      s.(workers := s.workers[w := k.(alive := false, pending := [], up := k.up[..delivered])],
         lost := s.lost + multiset(Transit(k.up[delivered..])) + multiset(k.pending))
    case Disconnect(w) =>
      s.(primary := s.primary.(reachable := s.primary.reachable - {w}))
    case Exit(w) =>
      s.(primary := Removed(s.primary.(reachable := s.primary.reachable - {w}, exited := s.primary.exited + {w}), w, 0))
    case Shutdown =>
      s.(primary := s.primary.(snapshots := []))
  }

  /** What nobody asked for can happen at any point: a living worker dies with any part of its channel
      still to arrive, a request times out, a dead worker is disconnected and reported. */
  lemma FaultsHappen(s: State, w: nat, delivered: nat, id: Id)
    ensures w < |s.workers| && s.workers[w].alive && delivered <= |s.workers[w].up|
            ==> && Enabled(s, Crash(w, delivered))
                && var k := Apply(s, Crash(w, delivered)).workers[w];
                   !k.alive && k.pending == [] && k.up == s.workers[w].up[..delivered]
    ensures w < |s.workers| && !s.workers[w].alive ==> Enabled(s, Disconnect(w)) && Enabled(s, Exit(w))
    ensures w < |s.workers| && !s.workers[w].alive ==> w !in Apply(s, Disconnect(w)).primary.reachable
    ensures (exists p :: p in s.primary.snapshots && p.id == id) ==> Enabled(s, GiveUp(id))
    ensures Enabled(s, Shutdown) && Apply(s, Shutdown).primary == s.primary.(snapshots := [])
    ensures w < |s.workers| && s.workers[w].alive
            ==> Enabled(s, Flush(w, true)) && Apply(s, Flush(w, true)).workers == s.workers
  {
  }

  ghost predicate Run(states: seq<State>, steps: seq<Step>) {
    && |states| == |steps| + 1 && states[0] == Initial
    && forall i :: 0 <= i < |steps| ==> Enabled(states[i], steps[i]) && states[i + 1] == Apply(states[i], steps[i])
  }
}
