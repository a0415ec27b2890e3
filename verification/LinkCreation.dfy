/** Generated codes meet write-behind creation (src/app.ts, src/server.ts): processes draw codes from
    their allocators and hand each of them to one creation. That accepted codes are unique, which
    the state machine of write-behind creation takes as a condition, is a theorem here. */
module LinkCreation {
  import opened PendingLinks
  import Base62
  import CodeAllocator
  import CodeScrambler
  import Guarantees
  import LinkTable
  import SyncQueue
  import WriteBehind

  /** Both systems, and the positions of the issued codes that a creation was sent with. */
  datatype World = World(codes: CodeAllocator.System, links: WriteBehind.State, used: set<nat>)

  datatype Step =
    | Allocate(code: CodeAllocator.Step)
    | Create(p: nat, link: PendingLink, maxPending: nat)    // ENQUEUE_LINK with the p-th code issued
    | Other(other: WriteBehind.Step)

  /** A creation takes a code that was issued and not used before; nothing is asked about the links
      already there. */
  ghost predicate Enabled(f: CodeScrambler.RoundFunction, w: World, t: Step) {
    match t
    case Allocate(code) => CodeAllocator.Enabled(w.codes, code)
    case Create(p, link, _) =>
      && p < |w.codes.issued| && p !in w.used
      && 0 <= w.codes.issued[p] < CodeScrambler.ALLOCATED_CODE_SPACE
      && link.code == CodeScrambler.CodeOf(f, w.codes.issued[p])
      && w.links.layout(link.code) < |w.links.shards| == |w.links.histories| && link.createdAt <= w.links.now
    case Other(other) => !other.Enqueue? && WriteBehind.Enabled(w.links, other)
  }

  /** The links after a step, if it can happen there. */
  ghost function LinksAfter(s: WriteBehind.State, t: WriteBehind.Step): WriteBehind.State {
    if WriteBehind.Enabled(s, t) then WriteBehind.Apply(s, t) else s
  }

  ghost function Apply(f: CodeScrambler.RoundFunction, w: World, t: Step): World
    requires Enabled(f, w, t)
  {
    match t
    case Allocate(code) => w.(codes := CodeAllocator.Apply(w.codes, code))
    case Create(p, link, max) => w.(links := LinksAfter(w.links, WriteBehind.Enqueue(link, max)), used := w.used + {p})
    case Other(other) => w.(links := LinksAfter(w.links, other))
  }

  /** The world after a run; steps that cannot happen are skipped. */
  ghost function Run(f: CodeScrambler.RoundFunction, w: World, steps: seq<Step>): World {
    if steps == [] then w
    else
      var before, t := Run(f, w, steps[..|steps| - 1]), steps[|steps| - 1];
      if Enabled(f, before, t) then Apply(f, before, t) else before
  }

  ghost predicate Initial(w: World) {
    CodeAllocator.Initial(w.codes) && WriteBehind.Initial(w.links) && w.used == {}
  }

  /** The code is one that was issued and used. */
  ghost predicate FromUsed(f: CodeScrambler.RoundFunction, w: World, code: string) {
    exists p :: p in w.used && p < |w.codes.issued| && 0 <= w.codes.issued[p] < CodeScrambler.ALLOCATED_CODE_SPACE
                && code == CodeScrambler.CodeOf(f, w.codes.issued[p])
  }

  /** Every link ever queued has a used code. */
  ghost predicate Inv(f: CodeScrambler.RoundFunction, w: World) {
    && CodeAllocator.Inv(w.codes)
    && forall l :: WriteBehind.Pushed(w.links, l) ==> FromUsed(f, w, l.code)
  }

  lemma IssuedGrows(s: CodeAllocator.System, t: CodeAllocator.Step)
    requires CodeAllocator.Enabled(s, t)
    ensures s.issued <= CodeAllocator.Apply(s, t).issued
  {
  }

  /** Only ENQUEUE_LINK adds to what was ever pushed. */
  lemma PushedByEnqueue(s: WriteBehind.State, t: WriteBehind.Step, l: PendingLink)
    requires WriteBehind.Enabled(s, t) && WriteBehind.Pushed(WriteBehind.Apply(s, t), l)
    ensures WriteBehind.Pushed(s, l) || (t.Enqueue? && t.link == l)
  {
  }

  lemma FromUsedStays(f: CodeScrambler.RoundFunction, w: World, w': World, code: string)
    requires FromUsed(f, w, code) && w.used <= w'.used && w.codes.issued <= w'.codes.issued
    ensures FromUsed(f, w', code)
  {
    var p :| p in w.used && p < |w.codes.issued| && 0 <= w.codes.issued[p] < CodeScrambler.ALLOCATED_CODE_SPACE
             && code == CodeScrambler.CodeOf(f, w.codes.issued[p]);
    assert w'.codes.issued[p] == w.codes.issued[p];
  }

  /** An issued code that was not used is not the code of any link ever queued. */
  lemma UnusedIsNew(f: CodeScrambler.RoundFunction, w: World, p: nat)
    requires Inv(f, w) && p < |w.codes.issued| && p !in w.used
    requires 0 <= w.codes.issued[p] < CodeScrambler.ALLOCATED_CODE_SPACE
    ensures !WriteBehind.EverQueued(w.links, CodeScrambler.CodeOf(f, w.codes.issued[p]))
  {
    var code := CodeScrambler.CodeOf(f, w.codes.issued[p]);
    if WriteBehind.EverQueued(w.links, code) {
      var l :| WriteBehind.Pushed(w.links, l) && l.code == code;
      assert FromUsed(f, w, code);
      var q :| q in w.used && q < |w.codes.issued| && 0 <= w.codes.issued[q] < CodeScrambler.ALLOCATED_CODE_SPACE
               && code == CodeScrambler.CodeOf(f, w.codes.issued[q]);
      CodeScrambler.CodeDeterminesId(f, w.codes.issued[p]);
      CodeScrambler.CodeDeterminesId(f, w.codes.issued[q]);
      assert false;
    }
  }

  lemma InvKept(f: CodeScrambler.RoundFunction, w: World, t: Step)
    requires Inv(f, w) && Enabled(f, w, t)
    ensures Inv(f, Apply(f, w, t))
  {
    var w' := Apply(f, w, t);
    if t.Allocate? {
      CodeAllocator.InvKept(w.codes, t.code);
      IssuedGrows(w.codes, t.code);
    }
    forall l | WriteBehind.Pushed(w'.links, l)
      ensures FromUsed(f, w', l.code)
    {
      PushedHasUsedCode(f, w, t, l);
    }
  }

  lemma PushedHasUsedCode(f: CodeScrambler.RoundFunction, w: World, t: Step, l: PendingLink)
    requires Inv(f, w) && Enabled(f, w, t) && WriteBehind.Pushed(Apply(f, w, t).links, l)
    ensures FromUsed(f, Apply(f, w, t), l.code)
  {
    var w' := Apply(f, w, t);
    if t.Allocate? {
      IssuedGrows(w.codes, t.code);
    }
    if WriteBehind.Pushed(w.links, l) {
      FromUsedStays(f, w, w', l.code);
    } else {
      var s := if t.Create? then WriteBehind.Enqueue(t.link, t.maxPending) else t.other;
      PushedByEnqueue(w.links, s, l);
      assert t.p in w'.used;
    }
  }

  lemma {:induction false} InvAlways(f: CodeScrambler.RoundFunction, w: World, steps: seq<Step>)
    requires Initial(w)
    ensures Inv(f, Run(f, w, steps))
  {
    if steps == [] {
      CodeAllocator.InvAlways(w.codes, []);
    } else {
      var before, t := Run(f, w, steps[..|steps| - 1]), steps[|steps| - 1];
      InvAlways(f, w, steps[..|steps| - 1]);
      if Enabled(f, before, t) {
        InvKept(f, before, t);
      }
    }
  }

  /** In every run a creation with a code fresh from an allocator meets the condition of the enqueue
      step: nobody was ever accepted with that code. */
  lemma GeneratedCodesAreNew(f: CodeScrambler.RoundFunction, w: World, steps: seq<Step>, t: Step)
    requires Initial(w) && t.Create? && Enabled(f, Run(f, w, steps), t)
    ensures !WriteBehind.EverQueued(Run(f, w, steps).links, t.link.code)
    ensures WriteBehind.Enabled(Run(f, w, steps).links, WriteBehind.Enqueue(t.link, t.maxPending))
    ensures Apply(f, Run(f, w, steps), t).links
         == WriteBehind.Apply(Run(f, w, steps).links, WriteBehind.Enqueue(t.link, t.maxPending))
    ensures Apply(f, Run(f, w, steps), t).codes == Run(f, w, steps).codes
  {
    InvAlways(f, w, steps);
    UnusedIsNew(f, Run(f, w, steps), t.p);
  }

  /** The allocators go on as they do alone. */
  lemma {:induction false} AllocatorsRunAlone(f: CodeScrambler.RoundFunction, w: World, codes: seq<CodeAllocator.Step>)
    ensures Run(f, w, seq(|codes|, i requires 0 <= i < |codes| => Allocate(codes[i])))
         == w.(codes := CodeAllocator.Run(w.codes, codes))
  {
    var steps := seq(|codes|, i requires 0 <= i < |codes| => Allocate(codes[i]));
    if codes != [] {
      var front := codes[..|codes| - 1];
      AllocatorsRunAlone(f, w, front);
      assert steps[..|steps| - 1] == seq(|front|, i requires 0 <= i < |front| => Allocate(front[i]));
    }
  }

  /** The links of a run are those of a run of write-behind creation. */
  lemma {:induction false} Projection(f: CodeScrambler.RoundFunction, w: World, steps: seq<Step>)
    returns (links: seq<WriteBehind.Step>)
    ensures WriteBehind.Run(w.links, links) == Run(f, w, steps).links
  {
    links := [];
    if steps != [] {
      var before, t := Run(f, w, steps[..|steps| - 1]), steps[|steps| - 1];
      links := Projection(f, w, steps[..|steps| - 1]);
      if Enabled(f, before, t) && !t.Allocate? {
        var s := if t.Create? then WriteBehind.Enqueue(t.link, t.maxPending) else t.other;
        assert (links + [s])[..|links|] == links;
        links := links + [s];
      }
    }
  }

  /** So no link that was accepted with a generated code is ever lost, with no condition on codes
      left: it is queued, or PostgreSQL has its target and instant, or its dead letter says Conflict,
      and Invalid only for a target that is empty or too long. */
  lemma CreatedLinksAreNeverLost(f: CodeScrambler.RoundFunction, w: World, steps: seq<Step>, l: PendingLink)
    requires Initial(w) && WriteBehind.Pushed(Run(f, w, steps).links, l)
    ensures var r, k := Run(f, w, steps).links, w.links.layout(l.code);
            && r.layout == w.links.layout && k < |r.shards| == |r.histories|
            && (|| l in r.shards[k].queue
                || (l.code in r.table && r.table[l.code].targetUrl == l.targetUrl
                    && r.table[l.code].createdAt == l.createdAt)
                || SyncQueue.DeadLetter(if 1 <= |l.targetUrl| <= 2048 then SyncQueue.Conflict else SyncQueue.Invalid, l)
                   in r.histories[k].dead)
  {
    var links := Projection(f, w, steps);
    Guarantees.NoAcceptedLinkIsLost(w.links, links, l);
    InvAlways(f, w, steps);
    var r := Run(f, w, steps);
    assert FromUsed(f, r, l.code);
    var p :| p in r.used && p < |r.codes.issued| && 0 <= r.codes.issued[p] < CodeScrambler.ALLOCATED_CODE_SPACE
             && l.code == CodeScrambler.CodeOf(f, r.codes.issued[p]);
    GeneratedCodesAreValid(f, r.codes.issued[p], l);
  }

  /** Every generated code passes the worker's test, so only the target decides. */
  lemma GeneratedCodesAreValid(f: CodeScrambler.RoundFunction, id: nat, l: PendingLink)
    requires id < CodeScrambler.ALLOCATED_CODE_SPACE && l.code == CodeScrambler.CodeOf(f, id)
    ensures IsValidCode(l.code) && (Readable(l) <==> 1 <= |l.targetUrl| <= 2048)
  {
    assert forall c :: c in l.code ==> Base62.IsLetter(c);
  }
}
