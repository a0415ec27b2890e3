/** Block reservations shared by concurrent callers (src/domain/code-allocator.ts).

    A process hands out the ids of one block at a time. Every `await` is a point where other
    callers, other processes and the database may act, so the protocol is a state machine whose
    steps are the stretches of code between awaits. */
module CodeAllocator {
  import CodeScrambler
  import opened Wrappers

  const MAX_SAFE_INTEGER: int := 0x1F_FFFF_FFFF_FFFF

  datatype Block = Block(start: int, size: int) {
    predicate Valid() {
      0 <= start && 1 <= size <= MAX_SAFE_INTEGER && start + size <= CodeScrambler.ALLOCATED_CODE_SPACE
    }
  }

  /** The fields of one allocator; `reserving` says that its reservation promise is set. */
  datatype Allocator = Allocator(next: int, end: int, reserving: bool)

  const FreshAllocator := Allocator(0, 0, false)

  /** One pass of the loop in nextCode: take an id, or make sure that a reservation is under
      way and wait. */
  function Pass(a: Allocator): (Allocator, Option<int>) {
    if a.next < a.end then (a.(next := a.next + 1), Some(a.next))
    else (a.(reserving := true), None)
  }

  /** The end of reserve(): install the block, or fail and leave the fields alone. */
  function Install(a: Allocator, b: Block): Allocator {
    if b.Valid() then a.(next := b.start, end := b.start + b.size) else a
  }

  class BlockCodeAllocator {
    var next: int
    var end: int
    var reserving: bool
    const scrambler: CodeScrambler.Scrambler

    constructor (scrambler: CodeScrambler.Scrambler)
      ensures View() == FreshAllocator && this.scrambler == scrambler
    {
      this.next, this.end, this.reserving := 0, 0, false;
      this.scrambler := scrambler;
    }

    function View(): Allocator
      reads this
    {
      Allocator(next, end, reserving)
    }

    /** The stretch of nextCode between two awaits. `reserve` tells the caller to send a
        reservation; a caller without a code waits for the reservation and comes back. */
    method NextCodePass() returns (code: Option<Result<string>>, reserve: bool)
      modifies this
      ensures View() == Pass(old(View())).0
      ensures code.None? <==> old(next) >= old(end)
      ensures next == (if code.Some? then old(next) + 1 else old(next)) && end == old(end)
      ensures reserving == (code.None? || old(reserving))
      ensures reserve <==> code.None? && !old(reserving)
      ensures code.Some? && 0 <= old(next) < CodeScrambler.ALLOCATED_CODE_SPACE
              ==> code.value == Ok(CodeScrambler.CodeOf(scrambler.round, old(next)))
    {
      if next >= end {
        reserve := !reserving;
        reserving := true;
        return None, reserve;
      }
      var id := next;
      next := next + 1;
      var encoded := scrambler.Encode(id);
      return Some(encoded), false;
    }

    method FinishReserve(block: Block) returns (r: Result<()>)
      modifies this
      ensures View() == Install(old(View()), block)
      ensures r.Ok? <==> 0 <= block.start && 1 <= block.size <= 0x1F_FFFF_FFFF_FFFF
                         && block.start + block.size <= 13537086546263552
      ensures r.Ok? ==> next == block.start && end == block.start + block.size && reserving == old(reserving)
      ensures r.Err? ==> View() == old(View())
    {
      if block.start < 0 || block.size > MAX_SAFE_INTEGER || block.size < 1 {
        return Err("invalid ID block");
      }
      var last := block.start + block.size;
      if last > CodeScrambler.ALLOCATED_CODE_SPACE {
        return Err("short code space exhausted");
      }
      next := block.start;
      end := last;
      return Ok(());
    }

    method ForgetReservation()
      modifies this
      ensures View() == old(View()).(reserving := false)
    {
      reserving := false;
    }
  }

  /** What is between an allocator and the database. */
  datatype Wire = Quiet | Requested | Granted(block: Block)

  /** All processes, the sequence they share, and every id handed out so far. */
  datatype System = System(cursor: int, allocators: seq<Allocator>, wires: seq<Wire>, issued: seq<int>)

  datatype Step =
    | Caller(i: nat)               // a caller, new or resumed, passes the loop head
    | Nextval(i: nat, b: Block)    // the sequence serves a request
    | QueryFails(i: nat)           // the query or its reply is lost
    | Reply(i: nat)                // the reply reaches reserve()
    | Finally(i: nat)              // the reservation promise is cleared

  /** The sequence never goes back, whatever increment it is given. */
  predicate Enabled(s: System, t: Step) {
    && t.i < |s.allocators| == |s.wires|
    && match t
       case Caller(i) => true
       case Nextval(i, b) => s.wires[i] == Requested && s.cursor <= b.start
       case QueryFails(i) => !s.wires[i].Quiet?
       case Reply(i) => s.wires[i].Granted?
       case Finally(i) => s.allocators[i].reserving && s.wires[i].Quiet?
  }

  function Apply(s: System, t: Step): System
    requires Enabled(s, t)
  {
    match t
    case Caller(i) =>
      var (a, taken) := Pass(s.allocators[i]);
      s.(allocators := s.allocators[i := a],
         wires := if taken.None? && !s.allocators[i].reserving then s.wires[i := Requested] else s.wires,
         issued := if taken.Some? then s.issued + [taken.value] else s.issued)
    case Nextval(i, b) =>
      s.(cursor := if b.size > 0 then b.start + b.size else b.start, wires := s.wires[i := Granted(b)])
    case QueryFails(i) =>
      s.(wires := s.wires[i := Quiet])
    case Reply(i) =>
      s.(allocators := s.allocators[i := Install(s.allocators[i], s.wires[i].block)], wires := s.wires[i := Quiet])
    case Finally(i) =>
      s.(allocators := s.allocators[i := s.allocators[i].(reserving := false)])
  }

  /** What nobody asked for can happen at any point: a query or its reply is lost, and the sequence
      answers with any block, valid or not, that lies beyond what it gave before. */
  lemma FaultsHappen(s: System, i: nat, b: Block)
    requires i < |s.allocators| == |s.wires|
    ensures Enabled(s, Caller(i))
    ensures s.wires[i] != Quiet ==> Enabled(s, QueryFails(i)) && Apply(s, QueryFails(i)).wires[i] == Quiet
    ensures s.wires[i] == Requested && s.cursor <= b.start
            ==> Enabled(s, Nextval(i, b)) && Apply(s, Nextval(i, b)).wires[i] == Granted(b)
    ensures s.wires[i] == Granted(b) ==> Enabled(s, Reply(i))
    ensures s.wires[i] == Quiet && s.allocators[i].reserving
            ==> Enabled(s, Finally(i)) && !Apply(s, Finally(i)).allocators[i].reserving
  {
  }

  /** The state after a run; steps that cannot happen are skipped. */
  function Run(s: System, steps: seq<Step>): System {
    if steps == [] then s
    else
      var before := Run(s, steps[..|steps| - 1]);
      var t := steps[|steps| - 1];
      if Enabled(before, t) then Apply(before, t) else before
  }

  predicate Initial(s: System) {
    && |s.allocators| == |s.wires| && s.issued == [] && 0 <= s.cursor
    && (forall i :: 0 <= i < |s.allocators| ==> s.allocators[i] == FreshAllocator)
    && (forall i :: 0 <= i < |s.wires| ==> s.wires[i] == Quiet)
  }

  /** `id` is reserved for this allocator and not yet handed out. */
  predicate Holds(a: Allocator, w: Wire, id: int) {
    a.next <= id < a.end || (w.Granted? && w.block.start <= id < w.block.start + w.block.size)
  }

  ghost predicate Inv(s: System) {
    && |s.allocators| == |s.wires|
    // a request is only on the wire while the promise is set and the block is used up
    && (forall i :: 0 <= i < |s.allocators| && !s.wires[i].Quiet? ==>
          s.allocators[i].reserving && s.allocators[i].next >= s.allocators[i].end)
    && (forall i, id {:trigger Holds(s.allocators[i], s.wires[i], id)} ::
          0 <= i < |s.allocators| && Holds(s.allocators[i], s.wires[i], id) ==>
          id < s.cursor && id !in s.issued)
    && (forall i, j, id :: 0 <= i < j < |s.allocators| && Holds(s.allocators[i], s.wires[i], id) ==>
          !Holds(s.allocators[j], s.wires[j], id))
    && (forall i :: 0 <= i < |s.allocators| && s.allocators[i].next < s.allocators[i].end ==>
          0 <= s.allocators[i].next && s.allocators[i].end <= CodeScrambler.ALLOCATED_CODE_SPACE)
    && (forall id :: id in s.issued ==> 0 <= id < CodeScrambler.ALLOCATED_CODE_SPACE && id < s.cursor)
    && (forall p, q :: 0 <= p < q < |s.issued| ==> s.issued[p] != s.issued[q])
  }

  lemma InvKept(s: System, t: Step)
    requires Inv(s) && Enabled(s, t)
    ensures Inv(Apply(s, t))
  {
    if t.Caller? && s.allocators[t.i].next < s.allocators[t.i].end {
      TakeKept(s, t);
    } else {
      NoTakeKept(s, t);
    }
  }

  /** Without a take nothing is issued, and only ids beyond the old cursor are newly held. */
  lemma NoTakeKept(s: System, t: Step)
    requires Inv(s) && Enabled(s, t) && !(t.Caller? && s.allocators[t.i].next < s.allocators[t.i].end)
    ensures Inv(Apply(s, t))
  {
    var s' := Apply(s, t);
    forall j, id | 0 <= j < |s'.allocators| && Holds(s'.allocators[j], s'.wires[j], id)
      ensures Holds(s.allocators[j], s.wires[j], id) || (t.Nextval? && t.i == j && s.cursor <= id < s'.cursor)
    {
      NewlyHeld(s, t, j, id);
    }
  }

  lemma NewlyHeld(s: System, t: Step, j: nat, id: int)
    requires Inv(s) && Enabled(s, t) && !(t.Caller? && s.allocators[t.i].next < s.allocators[t.i].end)
    requires j < |s.allocators| && Holds(Apply(s, t).allocators[j], Apply(s, t).wires[j], id)
    ensures Holds(s.allocators[j], s.wires[j], id) || (t.Nextval? && t.i == j && s.cursor <= id < Apply(s, t).cursor)
  {
  }

  lemma TakeKept(s: System, t: Step)
    requires Inv(s) && Enabled(s, t) && t.Caller? && s.allocators[t.i].next < s.allocators[t.i].end
    ensures Inv(Apply(s, t))
  {
    var s', a, w := Apply(s, t), s.allocators[t.i], s.wires[t.i];
    assert forall id :: Holds(s'.allocators[t.i], s'.wires[t.i], id) ==> Holds(a, w, id);
    assert Holds(a, w, a.next);
    assert s'.issued == s.issued + [a.next];
    assert forall id :: id in s'.issued ==> id in s.issued || id == a.next;
    assert forall p :: 0 <= p < |s.issued| ==> s.issued[p] in s.issued;
    assert forall j :: 0 <= j < |s.allocators| && j != t.i ==> !Holds(s.allocators[j], s.wires[j], a.next);
    assert forall j :: 0 <= j < |s.allocators| ==> !Holds(s'.allocators[j], s'.wires[j], a.next);
    forall j, id | 0 <= j < |s.allocators| && Holds(s'.allocators[j], s'.wires[j], id)
      ensures id < s.cursor && id !in s'.issued
    {
      assert Holds(s.allocators[j], s.wires[j], id);
      assert id != a.next;
    }
  }

  lemma {:induction false} InvAlways(s: System, steps: seq<Step>)
    requires Initial(s)
    ensures Inv(Run(s, steps))
  {
    if steps != [] {
      var before := Run(s, steps[..|steps| - 1]);
      InvAlways(s, steps[..|steps| - 1]);
      if Enabled(before, steps[|steps| - 1]) {
        InvKept(before, steps[|steps| - 1]);
      }
    }
  }

  /** In every run: a caller asks the sequence only for an allocator that has nothing on the wire,
      so a request or a block under way is never overwritten; and a block is replaced only by a
      reply, when its ids are all handed out. */
  lemma OneReservationAtATime(s: System, steps: seq<Step>, t: Step, j: nat)
    requires Initial(s) && Enabled(Run(s, steps), t) && j < |Run(s, steps).allocators|
    ensures var r := Run(s, steps); var after := Apply(r, t);
            && j < |r.wires| == |after.wires| && j < |after.allocators|
            && (t.Caller? && after.wires[j] != r.wires[j]
                ==> t.i == j && r.wires[j] == Quiet && after.wires[j] == Requested)
            && (r.wires[j] != Quiet && after.wires[j] != r.wires[j] ==> !t.Caller? && t.i == j)
            && (after.allocators[j].end != r.allocators[j].end ==>
                  t.Reply? && t.i == j && r.allocators[j].next >= r.allocators[j].end)
  {
    InvAlways(s, steps);
  }

  /** One pass after another of callers of one allocator. */
  function Callers(i: nat, n: nat): seq<Step> {
    seq(n, k => Caller(i))
  }

  function Ids(start: int, n: nat): seq<int> {
    seq(n, k => start + k)
  }

  /** An allocator that holds `n` ids hands out exactly those, in order, to the next `n` callers. */
  lemma {:induction false} HeldAreIssued(s: System, i: nat, n: nat)
    requires i < |s.allocators| == |s.wires| && s.allocators[i].next + n <= s.allocators[i].end
    ensures var r := Run(s, Callers(i, n));
            && r.issued == s.issued + Ids(s.allocators[i].next, n)
            && r.allocators == s.allocators[i := s.allocators[i].(next := s.allocators[i].next + n)]
            && r.wires == s.wires
  {
    if n > 0 {
      HeldAreIssued(s, i, n - 1);
      assert Callers(i, n)[..n - 1] == Callers(i, n - 1);
      assert Ids(s.allocators[i].next, n) == Ids(s.allocators[i].next, n - 1) + [s.allocators[i].next + (n - 1)];
    }
  }

  /** A block that reaches its allocator is handed out whole: the next callers get its first id, its
      second, and so on to its last, and then one more asks for another block. */
  lemma BlockIsHandedOut(s: System, i: nat, b: Block)
    requires i < |s.allocators| == |s.wires| && s.wires[i] == Granted(b)
    requires 0 <= b.start && 1 <= b.size <= MAX_SAFE_INTEGER && b.start + b.size <= 13537086546263552
    ensures var r := Run(Apply(s, Reply(i)), Callers(i, b.size));
            && r.issued == s.issued + Ids(b.start, b.size)
            && Enabled(r, Caller(i)) && Apply(r, Caller(i)).issued == r.issued
            && (!s.allocators[i].reserving ==> Apply(r, Caller(i)).wires[i] == Requested)
  {
    CodeScrambler.CodeSpaceIsPower();
    HeldAreIssued(Apply(s, Reply(i)), i, b.size);
  }

  /** A block that fails a test leaves the allocator as it was. */
  lemma BadBlockIsDropped(s: System, i: nat, b: Block)
    requires i < |s.allocators| == |s.wires| && s.wires[i] == Granted(b)
    requires b.start < 0 || b.size < 1 || b.size > MAX_SAFE_INTEGER || b.start + b.size > 13537086546263552
    ensures Apply(s, Reply(i)).allocators == s.allocators && Apply(s, Reply(i)).issued == s.issued
  {
    CodeScrambler.CodeSpaceIsPower();
  }

  /** In every run of any number of processes, whatever fails and however callers interleave, no
      code is handed out twice. */
  lemma CodesNeverRepeat(s: System, steps: seq<Step>, f: CodeScrambler.RoundFunction, p: nat, q: nat)
    requires Initial(s)
    requires p < q < |Run(s, steps).issued|
    ensures var ids := Run(s, steps).issued;
            && 0 <= ids[p] < CodeScrambler.ALLOCATED_CODE_SPACE
            && 0 <= ids[q] < CodeScrambler.ALLOCATED_CODE_SPACE
            && CodeScrambler.CodeOf(f, ids[p]) != CodeScrambler.CodeOf(f, ids[q])
  {
    InvAlways(s, steps);
    var ids := Run(s, steps).issued;
    assert ids[p] in ids && ids[q] in ids;
    CodeScrambler.CodeDeterminesId(f, ids[p]);
    CodeScrambler.CodeDeterminesId(f, ids[q]);
  }
}
