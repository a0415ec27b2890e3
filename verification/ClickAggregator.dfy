/** The C++ service's click counts in 64 stripes, each behind its own lock
    (cpp-redirect/src/core.hpp). A drain takes the stripes one by one, so records and other drains
    can come in between; the stretches under one lock are the steps of a state machine. */
module ClickAggregator {
  import opened ClickBuffer
  import Keys
  import Numbers

  const STRIPES: nat := 64

  function StripeOf(code: string): (i: nat)
    ensures i < STRIPES
  {
    Keys.Fnv1a(Keys.Bytes(code)) % STRIPES
  }

  /** Every code sits in its own stripe. */
  predicate Sorted(stripes: seq<Counts>) {
    && |stripes| == STRIPES
    && forall i, c :: 0 <= i < STRIPES && c in stripes[i] ==> StripeOf(c) == i
  }

  // ---- one thread ----

  datatype Entry = Entry(code: string, count: nat)

  /** The entries are those of the map, each once. */
  predicate Lists(entries: seq<Entry>, m: Counts) {
    && (forall i :: 0 <= i < |entries| ==> entries[i].code in m && m[entries[i].code] == entries[i].count)
    && (forall i, j :: 0 <= i < j < |entries| ==> entries[i].code != entries[j].code)
    && (forall c :: c in m ==> Entry(c, m[c]) in entries)
  }

  /** All stripes in one map. */
  function All(stripes: seq<Counts>): Counts {
    if stripes == [] then map[] else All(stripes[..|stripes| - 1]) + stripes[|stripes| - 1]
  }

  lemma {:induction false} AllIs(stripes: seq<Counts>, n: nat, c: string)
    requires n <= |stripes| && Sorted(stripes)
    ensures c in All(stripes[..n]) <==> StripeOf(c) < n && c in stripes[StripeOf(c)]
    ensures c in All(stripes[..n]) ==> All(stripes[..n])[c] == stripes[StripeOf(c)][c]
  {
    if n > 0 {
      assert stripes[..n][..n - 1] == stripes[..n - 1];
      AllIs(stripes, n - 1, c);
    }
  }

  class Aggregator {
    const stripes: array<Counts>

    ghost predicate Valid()
      reads stripes
    {
      Sorted(stripes[..])
    }

    constructor ()
      ensures Valid() && fresh(stripes) && All(stripes[..]) == map[]
    {
      stripes := new Counts[STRIPES](_ => map[]);
      new;
      assert stripes[..][..STRIPES] == stripes[..];
      forall c
        ensures c !in All(stripes[..])
      {
        AllIs(stripes[..], STRIPES, c);
      }
    }

    method Record(code: string, count: nat)
      requires Valid()
      modifies stripes
      ensures Valid()
      ensures stripes[..] == old(stripes[..])[StripeOf(code) := Added(old(stripes[..])[StripeOf(code)], code, count)]
      ensures StripeOf(code) == Keys.Fnv1a(Keys.Bytes(code)) % 64 && stripes.Length == 64
      ensures forall c :: Count(stripes[StripeOf(code)], c)
                       == Count(old(stripes[StripeOf(code)]), c) + if c == code then count else 0
    {
      var i := StripeOf(code);
      stripes[i] := Added(stripes[i], code, count);
      assert stripes[..] == old(stripes[..])[i := Added(old(stripes[..])[i], code, count)];
    }

    /** With nobody else at work: lists everything once and leaves nothing. */
    method Drain() returns (out: seq<Entry>)
      requires Valid()
      modifies stripes
      ensures Lists(out, All(old(stripes[..]))) && forall i :: 0 <= i < STRIPES ==> stripes[i] == map[]
    {
      out := [];
      ghost var was := stripes[..];
      for i := 0 to STRIPES
        invariant stripes.Length == STRIPES && Lists(out, All(was[..i]))
        invariant forall k :: 0 <= k < STRIPES ==> stripes[k] == if k < i then map[] else was[k]
      {
        var taken := stripes[i];
        stripes[i] := map[];
        forall c | c in taken
          ensures c !in All(was[..i])
        {
          AllIs(was, i, c);
        }
        assert was[..i + 1][..i] == was[..i];
        out := Append(out, All(was[..i]), taken);
      }
      assert was[..STRIPES] == was;
    }

    static method Append(entries: seq<Entry>, ghost m: Counts, taken: Counts) returns (r: seq<Entry>)
      requires Lists(entries, m) && m.Keys !! taken.Keys
      ensures Lists(r, m + taken)
    {
      r := entries;
      var left := taken;
      ghost var done := m;
      while left != map[]
        invariant Lists(r, done) && done.Keys !! left.Keys && done + left == m + taken
        decreases left.Keys
      {
        var c :| c in left;
        AppendOne(r, done, c, left[c]);
        r := r + [Entry(c, left[c])];
        done := done[c := left[c]];
        left := left - {c};
      }
    }

    method Pending() returns (total: nat)
      requires Valid()
      ensures total == Sum(All(stripes[..]))
    {
      total := 0;
      assert stripes[..0] == [];
      for i := 0 to STRIPES
        invariant total == Sum(All(stripes[..i]))
      {
        var all, counts := All(stripes[..i]), stripes[i];
        assert stripes[..i + 1][..i] == stripes[..i];
        forall c | c in counts
          ensures c !in all
        {
          AllIs(stripes[..], i, c);
          assert stripes[..][..i] == stripes[..i];
        }
        SumDisjoint(all, counts);
        var sum := SumEntries(counts);
        total := total + sum;
      }
      assert stripes[..STRIPES] == stripes[..];
    }

    static method SumEntries(m: Counts) returns (sum: nat)
      ensures sum == Sum(m)
    {
      sum := 0;
      var left := m;
      while left != map[]
        invariant sum + Sum(left) == Sum(m)
        decreases left.Keys
      {
        var c :| c in left;
        SumWithout(left, c);
        sum := sum + left[c];
        left := left - {c};
      }
    }
  }

  lemma AppendOne(entries: seq<Entry>, m: Counts, c: string, k: nat)
    requires Lists(entries, m) && c !in m
    ensures Lists(entries + [Entry(c, k)], m[c := k])
  {
    var r, n := entries + [Entry(c, k)], m[c := k];
    assert r[|entries|] == Entry(c, k);
    forall d | d in n
      ensures Entry(d, n[d]) in r
    {
      assert d != c ==> Entry(d, m[d]) in entries;
    }
  }

  lemma SumDisjoint(m: Counts, n: Counts)
    requires m.Keys !! n.Keys
    ensures Sum(m + n) == Sum(m) + Sum(n)
  {
    SumPlus(m, n);
    assert Plus(m, n) == m + n;
  }

  // ---- many threads ----

  /** A drain: the next stripe, what it took so far, and what had been recorded when it began. */
  datatype Draining = Draining(next: nat, out: Counts, before: Counts)

  datatype State = State(stripes: seq<Counts>, drains: seq<Draining>, recorded: Counts)

  datatype Step = Record(code: string, count: nat) | BeginDrain | TakeStripe(d: nat)

  function Initial(): State {
    State(seq(STRIPES, (i: nat) => map[]), [], map[])
  }

  predicate Enabled(s: State, step: Step) {
    step.TakeStripe? ==> step.d < |s.drains| && s.drains[step.d].next < |s.stripes|
  }

  function Apply(s: State, step: Step): State
    requires |s.stripes| == STRIPES && Enabled(s, step)
  {
    match step
    case Record(code, count) =>
      var i := StripeOf(code);
      s.(stripes := s.stripes[i := Added(s.stripes[i], code, count)], recorded := Added(s.recorded, code, count))
    case BeginDrain =>
      s.(drains := s.drains + [Draining(0, map[], s.recorded)])
    case TakeStripe(d) =>
      var drain := s.drains[d];
      var i := drain.next;
      s.(stripes := s.stripes[i := map[]],
         drains := s.drains[d := drain.(next := i + 1, out := Plus(drain.out, s.stripes[i]))])
  }

  function TakenByEach(drains: seq<Draining>, c: string): (r: seq<nat>)
    ensures |r| == |drains| && forall d :: 0 <= d < |drains| ==> r[d] == Count(drains[d].out, c)
  {
    seq(|drains|, d requires 0 <= d < |drains| => Count(drains[d].out, c))
  }

  /** What all drains together took of a code. */
  function Taken(drains: seq<Draining>, c: string): nat {
    Numbers.SumOf(TakenByEach(drains, c))
  }

  /** Clicks of a code are in its stripe or taken by one drain; and a drain that is past the stripe
      leaves nothing behind that was recorded before it began. */
  predicate Kept(s: State, c: string) {
    && |s.stripes| == STRIPES
    && Count(s.recorded, c) == Count(s.stripes[StripeOf(c)], c) + Taken(s.drains, c)
    && forall d :: 0 <= d < |s.drains| ==>
         && Count(s.drains[d].before, c) <= Count(s.recorded, c)
         && (StripeOf(c) < s.drains[d].next ==> Count(s.drains[d].before, c) <= Taken(s.drains, c))
  }

  predicate Apart(s: State) {
    Sorted(s.stripes) && forall d, c :: 0 <= d < |s.drains| && c in s.drains[d].out ==> StripeOf(c) < s.drains[d].next
  }

  lemma TakenUpdate(drains: seq<Draining>, d: nat, drain: Draining, c: string)
    requires d < |drains|
    ensures Taken(drains[d := drain], c) + Count(drains[d].out, c) == Taken(drains, c) + Count(drain.out, c)
  {
    var each := TakenByEach(drains, c);
    Numbers.SumOfUpdate(each, d, Count(drain.out, c));
    assert TakenByEach(drains[d := drain], c) == each[d := Count(drain.out, c)];
  }

  lemma BeginTakes(drains: seq<Draining>, before: Counts, c: string)
    ensures Taken(drains + [Draining(0, map[], before)], c) == Taken(drains, c)
  {
    var each := TakenByEach(drains + [Draining(0, map[], before)], c);
    assert each[..|each| - 1] == TakenByEach(drains, c);
  }

  lemma StepKeeps(s: State, step: Step, c: string)
    requires Kept(s, c) && Apart(s) && Enabled(s, step)
    ensures Kept(Apply(s, step), c) && Apart(Apply(s, step))
  {
    var t := Apply(s, step);
    match step
    case Record(code, count) =>
    case BeginDrain =>
      BeginTakes(s.drains, s.recorded, c);
    case TakeStripe(d) =>
      TakenUpdate(s.drains, d, t.drains[d], c);
  }

  /** The next `n` stripes of a drain, with nobody else at work. */
  function TakeStripes(s: State, d: nat, n: nat): (t: State)
    requires |s.stripes| == STRIPES && d < |s.drains| && s.drains[d].next + n <= STRIPES
    ensures |t.stripes| == STRIPES && |t.drains| == |s.drains| && t.drains[d].next == s.drains[d].next + n
  {
    if n == 0 then s else Apply(TakeStripes(s, d, n - 1), TakeStripe(d))
  }

  /** A drain gets on: after `n` stripes it has taken exactly their clicks and left them empty. */
  lemma {:induction false} DrainTakesStripes(s: State, d: nat, n: nat, c: string)
    requires |s.stripes| == STRIPES && d < |s.drains| && s.drains[d].next + n <= STRIPES
    ensures var t, i := TakeStripes(s, d, n), s.drains[d].next;
            var taken := i <= StripeOf(c) < i + n && Sorted(s.stripes);
            && t.recorded == s.recorded
            && (forall k :: 0 <= k < STRIPES ==> t.stripes[k] == if i <= k < i + n then map[] else s.stripes[k])
            && (Sorted(s.stripes) ==>
                  Count(t.drains[d].out, c)
                  == Count(s.drains[d].out, c) + if taken then Count(s.stripes[StripeOf(c)], c) else 0)
  {
    if n > 0 {
      DrainTakesStripes(s, d, n - 1, c);
      var before, k := TakeStripes(s, d, n - 1), s.drains[d].next + n - 1;
      assert before.stripes[k] == s.stripes[k];
      assert Sorted(s.stripes) && StripeOf(c) != k ==> c !in s.stripes[k];
    }
  }

  /** A record puts its clicks into the code's stripe; a drain that begins knows all that was recorded. */
  lemma RecordsAndBegins(s: State, code: string, count: nat, c: string)
    requires |s.stripes| == STRIPES
    ensures var t, i := Apply(s, Step.Record(code, count)), StripeOf(code);
            && Count(t.recorded, c) == Count(s.recorded, c) + (if c == code then count else 0)
            && Count(t.stripes[i], c) == Count(s.stripes[i], c) + if c == code then count else 0
    ensures Apply(s, BeginDrain) == s.(drains := s.drains + [Draining(0, map[], s.recorded)])
  {
  }

  ghost predicate Run(states: seq<State>, steps: seq<Step>) {
    && |states| == |steps| + 1 && states[0] == Initial()
    && forall i :: 0 <= i < |steps| ==>
         |states[i].stripes| == STRIPES && Enabled(states[i], steps[i]) && states[i + 1] == Apply(states[i], steps[i])
  }

  lemma {:induction false} KeptAlways(states: seq<State>, steps: seq<Step>, i: nat, c: string)
    requires Run(states, steps) && i < |states|
    ensures Kept(states[i], c) && Apart(states[i])
  {
    if i > 0 {
      KeptAlways(states, steps, i - 1, c);
      StepKeeps(states[i - 1], steps[i - 1], c);
    }
  }

  /** In every interleaving every recorded click is in its stripe or in what one drain took, once;
      and when a drain is done, all clicks recorded before it began have been taken, by it or by a
      drain beside it. */
  lemma DrainsTakeWhatWasRecorded(states: seq<State>, steps: seq<Step>, i: nat, d: nat, c: string)
    requires Run(states, steps) && i < |states| && d < |states[i].drains|
    ensures var s := states[i];
            && |s.stripes| == STRIPES
            && Count(s.recorded, c) == Count(s.stripes[StripeOf(c)], c) + Taken(s.drains, c)
            && (s.drains[d].next == STRIPES ==> Count(s.drains[d].before, c) <= Taken(s.drains, c))
  {
    KeptAlways(states, steps, i, c);
  }

  /** What a drain takes next repeats none of its codes. */
  lemma DrainsListCodesOnce(states: seq<State>, steps: seq<Step>, i: nat, d: nat, c: string)
    requires Run(states, steps) && i < |states| && d < |states[i].drains| && Enabled(states[i], TakeStripe(d))
    ensures c in states[i].drains[d].out ==> c !in states[i].stripes[states[i].drains[d].next]
  {
    KeptAlways(states, steps, i, c);
  }
}
