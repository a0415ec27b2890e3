/** Clicks collected in memory and written in batches (src/store/click-buffer.ts).

    A flush is split at its `await`: while the sink works on a batch, clicks go on being recorded
    into a fresh map. The stretches of code between awaits are the steps of a state machine. */
module ClickBuffer {
  import opened Wrappers
  import Numbers

  type Counts = map<string, nat>

  function Count(m: Counts, c: string): nat {
    if c in m then m[c] else 0
  }

  function Added(m: Counts, c: string, k: nat): Counts {
    m[c := Count(m, c) + k]
  }

  /** Both counts together. */
  function Plus(m: Counts, n: Counts): Counts {
    map c | c in m.Keys + n.Keys :: Count(m, c) + Count(n, c)
  }

  ghost function Sum(m: Counts): nat {
    if m == map[] then 0
    else
      var c :| c in m;
      m[c] + Sum(m - {c})
  }

  lemma {:induction false} SumWithout(m: Counts, c: string)
    requires c in m
    ensures Sum(m) == m[c] + Sum(m - {c})
    decreases m
  {
    var d :| d in m && Sum(m) == m[d] + Sum(m - {d});
    if d != c {
      SumWithout(m - {d}, c);
      SumWithout(m - {c}, d);
      assert m - {d} - {c} == m - {c} - {d};
    }
  }

  lemma PlusOne(m: Counts, n: Counts, c: string)
    requires c in n
    ensures Plus(m, n) == Added(Plus(m, n - {c}), c, n[c])
  {
  }

  lemma SumAdded(m: Counts, c: string, k: nat)
    ensures Sum(Added(m, c, k)) == Sum(m) + k
  {
    var u := Added(m, c, k);
    SumWithout(u, c);
    if c in m {
      SumWithout(m, c);
      assert u - {c} == m - {c};
    } else {
      assert u - {c} == m;
    }
  }

  lemma SumPlusOne(m: Counts, n: Counts, c: string)
    requires c in n
    ensures Sum(Plus(m, n)) == Sum(Plus(m, n - {c})) + n[c]
  {
    PlusOne(m, n, c);
    SumAdded(Plus(m, n - {c}), c, n[c]);
  }

  lemma {:induction false} SumPlus(m: Counts, n: Counts)
    ensures Sum(Plus(m, n)) == Sum(m) + Sum(n)
    decreases n
  {
    if n == map[] {
      assert Plus(m, n) == m;
    } else {
      var c :| c in n;
      SumWithout(n, c);
      SumPlus(m, n - {c});
      SumPlusOne(m, n, c);
    }
  }

  /** An answer of the sink: the codes of the batch, and those without a stored link. */
  datatype Reply = Reply(codes: set<string>, unmatched: set<string>)

  /** How many replies in a row, up to the last one about `c`, called `c` unmatched. */
  function TrailingUnmatched(replies: seq<Reply>, c: string): nat {
    if replies == [] then 0
    else
      var last := replies[|replies| - 1];
      if c !in last.codes then TrailingUnmatched(replies[..|replies| - 1], c)
      else if c !in last.unmatched then 0
      else TrailingUnmatched(replies[..|replies| - 1], c) + 1
  }

  /** The attempt count after these replies: it starts over at a matched reply, and when it
      reaches the limit. */
  function Attempts(replies: seq<Reply>, c: string, limit: nat): nat {
    if replies == [] then 0
    else
      var last, before := replies[|replies| - 1], Attempts(replies[..|replies| - 1], c, limit);
      if c !in last.codes then before
      else if c !in last.unmatched || before + 1 >= limit then 0
      else before + 1
  }

  /** Does one more unmatched reply use up the attempts? */
  predicate RunsOut(before: seq<Reply>, c: string, limit: nat) {
    Attempts(before, c, limit) + 1 >= limit
  }

  /** The attempts are the unmatched replies in a row, counted in rounds of the limit. */
  lemma {:induction false} AttemptsAreRemainder(replies: seq<Reply>, c: string, limit: nat)
    requires limit >= 1
    ensures Attempts(replies, c, limit) == TrailingUnmatched(replies, c) % limit
  {
    if replies != [] {
      var before := replies[..|replies| - 1];
      AttemptsAreRemainder(before, c, limit);
      NextRemainder(TrailingUnmatched(before, c), limit);
    }
  }

  /** Clicks are dropped exactly at every limit-th unmatched reply in a row. */
  lemma RunsOutEveryLimit(before: seq<Reply>, c: string, limit: nat, reply: Reply)
    requires limit >= 1 && c in reply.codes && c in reply.unmatched
    ensures TrailingUnmatched(before + [reply], c) == TrailingUnmatched(before, c) + 1
    ensures RunsOut(before, c, limit) <==> TrailingUnmatched(before + [reply], c) % limit == 0
  {
    assert (before + [reply])[..|before|] == before;
    AttemptsAreRemainder(before, c, limit);
    NextRemainder(TrailingUnmatched(before, c), limit);
  }

  lemma NextRemainder(n: nat, m: nat)
    requires m >= 1
    ensures n % m + 1 >= m <==> (n + 1) % m == 0
    ensures n % m + 1 < m ==> (n + 1) % m == n % m + 1
    ensures n % m < m
  {
    var q, r := n / m, n % m;
    assert n == m * q + r;
    if r + 1 < m {
      Numbers.Remainder(n + 1, m, q, r + 1);
    } else {
      assert m * (q + 1) == m * q + m;
      Numbers.Remainder(n + 1, m, q + 1, 0);
    }
  }

  /** flushPromise: unset; set while the sink works; or set although the flush is over. */
  datatype Flush = NoFlush | Waiting(batch: Counts) | Settled

  /** The fields of the buffer, but for the two totals. */
  datatype Buffer = Buffer(pending: Counts, flushing: Flush, closed: bool, attempts: Counts) {
    function Batch(): Counts {
      if flushing.Waiting? then flushing.batch else map[]
    }
  }

  const EmptyBuffer := Buffer(map[], NoFlush, false, map[])

  function Recorded(b: Buffer, code: string): Buffer {
    b.(pending := Added(b.pending, code, 1))
  }

  /** flush up to its await: it joins a flush under way, or takes the pending clicks. */
  function Taken(b: Buffer): Buffer {
    if b.flushing != NoFlush then b
    else if b.pending == map[] then b.(flushing := Settled)
    else b.(pending := map[], flushing := Waiting(b.pending))
  }

  /** The sink threw: the batch is pending again. */
  function Restored(b: Buffer): Buffer {
    b.(pending := Plus(b.pending, b.Batch()), flushing := Settled)
  }

  predicate LastAttempt(attempts: Counts, c: string, limit: nat) {
    Count(attempts, c) + 1 >= limit
  }

  /** The clicks of a batch after an answer: stored, tried again, or given up. */
  function Matched(batch: Counts, unmatched: set<string>): Counts {
    batch - unmatched
  }

  function Retried(batch: Counts, attempts: Counts, unmatched: set<string>, limit: nat): Counts {
    map c | c in batch && c in unmatched && !LastAttempt(attempts, c, limit) :: batch[c]
  }

  function GivenUp(batch: Counts, attempts: Counts, unmatched: set<string>, limit: nat): Counts {
    map c | c in batch && c in unmatched && LastAttempt(attempts, c, limit) :: batch[c]
  }

  function OneFurther(attempts: Counts, codes: set<string>): Counts {
    map c | c in codes :: Count(attempts, c) + 1
  }

  /** Matched codes and codes given up start over; the others are one attempt further. `done` are
      the unmatched codes looked at so far. */
  function NextAttempts(batch: Counts, attempts: Counts, unmatched: set<string>, done: set<string>,
                        limit: nat): Counts {
    (attempts - Matched(batch, unmatched).Keys - GivenUp(batch, attempts, done, limit).Keys)
      + OneFurther(attempts, Retried(batch, attempts, done, limit).Keys)
  }

  function Answered(b: Buffer, unmatched: set<string>, limit: nat): Buffer {
    b.(pending := Plus(b.pending, Retried(b.Batch(), b.attempts, unmatched, limit)), flushing := Settled,
       attempts := NextAttempts(b.Batch(), b.attempts, unmatched, unmatched, limit))
  }

  // ---- the program ----

  class ClickBuffer {
    const maxPendingClicks: nat
    const maxUnmatchedAttempts: nat

    var pending: Counts
    var pendingTotal: nat
    var flushing: Flush
    var closed: bool
    var unmatchedAttempts: Counts
    var dropped: nat

    constructor (maxPendingClicks: nat, maxUnmatchedAttempts: nat)
      requires maxPendingClicks >= 1 && maxUnmatchedAttempts >= 1
      ensures View() == EmptyBuffer && Valid() && dropped == 0
      ensures this.maxPendingClicks == maxPendingClicks && this.maxUnmatchedAttempts == maxUnmatchedAttempts
    {
      this.maxPendingClicks, this.maxUnmatchedAttempts := maxPendingClicks, maxUnmatchedAttempts;
      pending, pendingTotal, flushing, closed, unmatchedAttempts, dropped := map[], 0, NoFlush, false, map[], 0;
    }

    function View(): Buffer
      reads this
    {
      Buffer(pending, flushing, closed, unmatchedAttempts)
    }

    /** The running total is the sum of the pending counts. */
    ghost predicate TotalOk()
      reads this
    {
      pendingTotal == Sum(pending)
    }

    /** And no code has used up its attempts. */
    ghost predicate Valid()
      reads this
    {
      TotalOk() && WithinLimit(unmatchedAttempts, maxUnmatchedAttempts)
    }

    method AddPending(code: string, count: nat)
      requires TotalOk()
      modifies `pending, `pendingTotal
      ensures TotalOk() && pending == Added(old(pending), code, count)
    {
      SumAdded(pending, code, count);
      pending := pending[code := Count(pending, code) + count];
      pendingTotal := pendingTotal + count;
    }

    /** A full buffer flushes by itself. */
    method Record(code: string) returns (r: Result<()>)
      requires Valid()
      modifies this
      ensures Valid() && dropped == old(dropped)
      ensures r.Err? <==> old(closed) || code == ""
      ensures r.Err? ==> View() == old(View())
      ensures r.Ok? ==> var b := Recorded(old(View()), code);
                        View() == if Sum(b.pending) >= maxPendingClicks then Taken(b) else b
      // one click more for the code and none for another; a full buffer is taken when no flush is under way
      ensures r.Ok? ==> var more := old(pending)[code := (if code in old(pending) then old(pending)[code] else 0) + 1];
                        if Sum(more) >= maxPendingClicks && old(flushing) == NoFlush
                        then pending == map[] && flushing == Waiting(more)
                        else pending == more && flushing == old(flushing)
    {
      if closed {
        return Err("click buffer is closed");
      }
      if code == "" {
        return Err("link code must not be empty");
      }
      AddPending(code, 1);
      if pendingTotal >= maxPendingClicks {
        BeginFlush();
      }
      return Ok(());
    }

    method BeginFlush()
      requires Valid()
      modifies this
      ensures Valid() && dropped == old(dropped) && View() == Taken(old(View()))
      ensures unmatchedAttempts == old(unmatchedAttempts) && closed == old(closed)
      ensures old(flushing) != NoFlush ==> pending == old(pending) && flushing == old(flushing)
      ensures old(flushing) == NoFlush ==>
                pending == map[] && flushing == if old(pending) == map[] then Settled else Waiting(old(pending))
    {
      if flushing != NoFlush {
        return;
      }
      if pending == map[] {
        flushing := Settled;
        return;
      }
      flushing := Waiting(pending);
      pending := map[];
      pendingTotal := 0;
    }

    method SinkFails()
      requires Valid() && flushing.Waiting?
      modifies this
      ensures Valid() && dropped == old(dropped) && View() == Restored(old(View()))
      ensures flushing == Settled && unmatchedAttempts == old(unmatchedAttempts)
      ensures forall c :: Count(pending, c) == Count(old(pending), c) + Count(old(flushing).batch, c)
    {
      ghost var b := View();
      var batch := flushing.batch;
      var left := batch.Keys;
      assert Plus(pending, batch - left) == pending;
      while left != {}
        modifies `pending, `pendingTotal
        invariant left <= batch.Keys && TotalOk()
        invariant View() == b.(pending := Plus(b.pending, batch - left))
        decreases left
      {
        var code :| code in left;
        RestoreOne(b.pending, batch, left, code);
        AddPending(code, batch[code]);
        left := left - {code};
      }
      assert batch - {} == batch;
      flushing := Settled;
    }

    /** The answer of the sink, code by code: an unmatched code below the limit is pending again and one
        attempt further, and any other code of the batch starts over. */
    method SinkReplies(unmatched: set<string>)
      requires Valid() && flushing.Waiting?
      modifies this
      ensures Valid() && View() == Answered(old(View()), unmatched, maxUnmatchedAttempts)
      ensures flushing == Settled
      ensures forall c :: Resolved(old(View()), View(), unmatched, maxUnmatchedAttempts, c)
      ensures dropped == old(dropped) +
                Sum(GivenUp(old(View()).Batch(), old(unmatchedAttempts), unmatched, maxUnmatchedAttempts))
    {
      ghost var b := View();
      SettleCodes(unmatched);
      forall c
        ensures Resolved(b, View(), unmatched, maxUnmatchedAttempts, c)
      {
        AnsweredResolves(b, unmatched, maxUnmatchedAttempts, c);
      }
    }

    /** The two loops, over the batch and over the unmatched codes. */
    method SettleCodes(unmatched: set<string>)
      requires Valid() && flushing.Waiting?
      modifies this
      ensures Valid() && View() == Answered(old(View()), unmatched, maxUnmatchedAttempts)
      ensures dropped == old(dropped) +
                Sum(GivenUp(old(View()).Batch(), old(unmatchedAttempts), unmatched, maxUnmatchedAttempts))
    {
      ghost var b, lost := View(), dropped;
      var batch := flushing.batch;
      unmatchedAttempts := ForgetMatched(batch, unmatched, unmatchedAttempts);
      NothingDone(batch, b.pending, b.attempts, unmatched, maxUnmatchedAttempts);
      var left := unmatched;
      while left != {}
        modifies `pending, `pendingTotal, `unmatchedAttempts, `dropped
        invariant left <= unmatched && TotalOk()
        invariant Halfway(View(), dropped, b, unmatched, unmatched - left, lost, maxUnmatchedAttempts)
        decreases left
      {
        var code :| code in left;
        ghost var done := unmatched - left;
        assert unmatched - (left - {code}) == done + {code};
        TryAgain(batch, code, b, unmatched, done, lost);
        left := left - {code};
      }
      assert unmatched - {} == unmatched;
      AnsweredWithin(b, unmatched, maxUnmatchedAttempts);
      flushing := Settled;
    }

    /** One turn of the second loop; codes outside the batch are skipped. */
    method TryAgain(batch: Counts, code: string, ghost b: Buffer, ghost unmatched: set<string>,
                    ghost done: set<string>, ghost lost: nat)
      requires TotalOk() && b.flushing == Waiting(batch) && code in unmatched && code !in done
      requires Halfway(View(), dropped, b, unmatched, done, lost, maxUnmatchedAttempts)
      modifies `pending, `pendingTotal, `unmatchedAttempts, `dropped
      ensures TotalOk() && Halfway(View(), dropped, b, unmatched, done + {code}, lost, maxUnmatchedAttempts)
    {
      if code !in batch {
        SkipForeign(batch, b.attempts, done, code, maxUnmatchedAttempts);
        return;
      }
      Untouched(batch, b.attempts, unmatched, done, code, maxUnmatchedAttempts);
      var attempts := Count(unmatchedAttempts, code) + 1;
      if attempts >= maxUnmatchedAttempts {
        DropStep(View(), dropped, b, unmatched, done, lost, maxUnmatchedAttempts, code);
        GiveUp(code, batch[code]);
      } else {
        KeepStep(View(), dropped, b, unmatched, done, lost, maxUnmatchedAttempts, code);
        Retry(code, batch[code], attempts);
      }
    }

    method GiveUp(code: string, count: nat)
      modifies `unmatchedAttempts, `dropped
      ensures View() == old(View()).(attempts := old(unmatchedAttempts) - {code}) && dropped == old(dropped) + count
    {
      unmatchedAttempts := unmatchedAttempts - {code};
      dropped := dropped + count;
    }

    method Retry(code: string, count: nat, attempts: nat)
      requires TotalOk()
      modifies `pending, `pendingTotal, `unmatchedAttempts
      ensures TotalOk()
      ensures View() == old(View()).(attempts := old(unmatchedAttempts)[code := attempts],
                                     pending := Added(old(pending), code, count))
    {
      unmatchedAttempts := unmatchedAttempts[code := attempts];
      AddPending(code, count);
    }

    method ForgetMatched(batch: Counts, unmatched: set<string>, before: Counts) returns (after: Counts)
      ensures after == before - Matched(batch, unmatched).Keys
    {
      after := before;
      var left := batch.Keys;
      while left != {}
        invariant left <= batch.Keys
        invariant after == before - (batch.Keys - left - unmatched)
        decreases left
      {
        var code :| code in left;
        if code !in unmatched {
          after := after - {code};
        }
        left := left - {code};
      }
      assert Matched(batch, unmatched).Keys == batch.Keys - {} - unmatched;
    }

    method ClearFlush()
      requires Valid() && flushing == Settled
      modifies this
      ensures Valid() && dropped == old(dropped) && View() == old(View()).(flushing := NoFlush)
    {
      flushing := NoFlush;
    }

    /** Every pending code was called unmatched in at least the last `n` flushes. */
    ghost predicate Tried(n: nat)
      reads this
    {
      forall c :: c in pending ==> Count(unmatchedAttempts, c) >= n
    }

    /** Waits for the flush under way, whose answer can be anything. If the sink `works`, it does
        not throw. */
    method AwaitFlush(works: bool, ghost n: nat) returns (ok: bool)
      requires Valid() && flushing != NoFlush
      requires forall c :: c in View().Batch() ==> Count(unmatchedAttempts, c) >= n
      modifies this
      ensures Valid() && flushing == NoFlush && closed == old(closed)
      ensures works ==> ok
      ensures ok && old(flushing).Waiting? && old(pending) == map[] ==> Tried(n + 1)
    {
      ok := true;
      if flushing.Waiting? {
        var throws: bool := *;
        if throws && !works {
          SinkFails();
          ok := false;
        } else {
          var unmatched: set<string> := *;
          if pending == map[] {
            AnsweredTried(View(), unmatched, maxUnmatchedAttempts, n);
          }
          SinkReplies(unmatched);
        }
      }
      ClearFlush();
    }

    /** Drains the buffer. Unless the sink throws, it ends empty after at most
        maxUnmatchedAttempts flushes beyond the one under way. */
    method Close(works: bool) returns (r: Result<()>, flushes: nat)
      requires Valid()
      modifies this
      ensures Valid() && closed
      ensures works ==> r.Ok?
      ensures !old(closed) && r.Ok? ==> pending == map[] && pendingTotal == 0 && flushing == NoFlush
      ensures flushes <= maxUnmatchedAttempts
    {
      flushes := 0;
      if closed {
        return Ok(()), 0;
      }
      closed := true;
      if flushing != NoFlush {
        var ok := AwaitFlush(works, 0);
        if !ok {
          return Err("flush failed"), 0;
        }
      }
      while |pending| > 0
        invariant Valid() && closed && flushing == NoFlush && Tried(flushes)
        invariant flushes <= maxUnmatchedAttempts
        decreases maxUnmatchedAttempts - flushes
      {
        assert exists c :: c in pending;
        BeginFlush();
        var ok := AwaitFlush(works, flushes);
        flushes := flushes + 1;
        if !ok {
          return Err("flush failed"), flushes;
        }
      }
      assert pending == map[];
      return Ok(()), flushes;
    }
  }

  /** No code has been called unmatched as often as the limit says. */
  ghost predicate WithinLimit(attempts: Counts, limit: nat) {
    limit >= 1 && forall c :: Count(attempts, c) < limit
  }

  /** An answer leaves every code below the limit. */
  lemma AnsweredWithin(b: Buffer, unmatched: set<string>, limit: nat)
    requires WithinLimit(b.attempts, limit)
    ensures WithinLimit(Answered(b, unmatched, limit).attempts, limit)
  {
    forall c
      ensures Count(Answered(b, unmatched, limit).attempts, c) < limit
    {
      AttemptsAfter(b.Batch(), b.attempts, unmatched, limit, c);
      assert Count(b.attempts, c) < limit;
    }
  }

  /** What an answer means for one code. */
  ghost predicate Resolved(b: Buffer, after: Buffer, unmatched: set<string>, limit: nat, c: string) {
    var again := c in b.Batch() && c in unmatched && Count(b.attempts, c) + 1 < limit;
    && Count(after.pending, c) == Count(b.pending, c) + (if again then b.Batch()[c] else 0)
    && Count(after.attempts, c) == if again then Count(b.attempts, c) + 1
                                   else if c in b.Batch() then 0 else Count(b.attempts, c)
  }

  lemma AnsweredResolves(b: Buffer, unmatched: set<string>, limit: nat, c: string)
    ensures Resolved(b, Answered(b, unmatched, limit), unmatched, limit, c)
  {
    AttemptsAfter(b.Batch(), b.attempts, unmatched, limit, c);
    PlusCount(b.pending, Retried(b.Batch(), b.attempts, unmatched, limit), c);
  }

  /** A flush of the whole buffer leaves only codes that are one attempt further. */
  lemma AnsweredTried(b: Buffer, unmatched: set<string>, limit: nat, n: nat)
    requires b.pending == map[] && forall c :: c in b.Batch() ==> Count(b.attempts, c) >= n
    ensures var a := Answered(b, unmatched, limit); forall c :: c in a.pending ==> Count(a.attempts, c) >= n + 1
  {
    forall c | c in Retried(b.Batch(), b.attempts, unmatched, limit)
      ensures Count(Answered(b, unmatched, limit).attempts, c) >= n + 1
    {
      AttemptsAfter(b.Batch(), b.attempts, unmatched, limit, c);
    }
  }

  /** What an answer makes of a code's attempts. */
  lemma AttemptsAfter(batch: Counts, attempts: Counts, unmatched: set<string>, limit: nat, c: string)
    ensures Count(NextAttempts(batch, attempts, unmatched, unmatched, limit), c)
         == if c !in batch then Count(attempts, c)
            else if c !in unmatched || Count(attempts, c) + 1 >= limit then 0
            else Count(attempts, c) + 1
  {
  }

  /** Restoring one more code of the batch. */
  lemma RestoreOne(pending: Counts, batch: Counts, left: set<string>, code: string)
    requires code in left && left <= batch.Keys
    ensures var now, then' := batch - left, batch - (left - {code});
            Plus(pending, then') == Added(Plus(pending, now), code, batch[code])
  {
    var now, then' := batch - left, batch - (left - {code});
    PlusOne(pending, then', code);
    assert then' - {code} == now;
  }

  lemma OneMoreRetried(batch: Counts, attempts: Counts, done: set<string>, code: string, limit: nat)
    requires code in batch && code !in done && !LastAttempt(attempts, code, limit)
    ensures var retried := Retried(batch, attempts, done, limit);
            var retried' := Retried(batch, attempts, done + {code}, limit);
            retried' == retried[code := batch[code]] && code !in retried
    ensures GivenUp(batch, attempts, done + {code}, limit) == GivenUp(batch, attempts, done, limit)
  {
  }

  lemma OneMoreGivenUp(batch: Counts, attempts: Counts, done: set<string>, code: string, limit: nat)
    requires code in batch && code !in done && LastAttempt(attempts, code, limit)
    ensures Retried(batch, attempts, done + {code}, limit) == Retried(batch, attempts, done, limit)
    ensures var lost, lost' := GivenUp(batch, attempts, done, limit), GivenUp(batch, attempts, done + {code}, limit);
            lost' == lost[code := batch[code]] && code !in lost
  {
  }

  lemma SumInserted(m: Counts, code: string, n: nat)
    requires code !in m
    ensures Sum(m[code := n]) == Sum(m) + n
  {
    SumWithout(m[code := n], code);
    assert m[code := n] - {code} == m;
  }

  lemma PlusInserted(m: Counts, n: Counts, code: string, k: nat)
    requires code !in n
    ensures Plus(m, n[code := k]) == Added(Plus(m, n), code, k)
  {
  }

  lemma MapsOneLess(m: Counts, gone: set<string>, more: Counts, code: string)
    requires code !in more
    ensures (m - (gone + {code})) + more == ((m - gone) + more) - {code}
  {
  }

  lemma MapsOneMore(m: Counts, more: Counts, code: string, k: nat)
    ensures m + more[code := k] == (m + more)[code := k]
  {
  }

  lemma Untouched(batch: Counts, attempts: Counts, unmatched: set<string>, done: set<string>, code: string, limit: nat)
    requires code in unmatched && code !in done
    ensures code !in Matched(batch, unmatched).Keys && code !in GivenUp(batch, attempts, done, limit).Keys
    ensures code !in Retried(batch, attempts, done, limit).Keys
    ensures Count(NextAttempts(batch, attempts, unmatched, done, limit), code) == Count(attempts, code)
  {
  }

  /** One more code whose attempts are used up. */
  lemma GiveUpOne(batch: Counts, attempts: Counts, unmatched: set<string>, done: set<string>, code: string, limit: nat)
    requires code in batch && code in unmatched && code !in done && LastAttempt(attempts, code, limit)
    ensures NextAttempts(batch, attempts, unmatched, done + {code}, limit)
         == NextAttempts(batch, attempts, unmatched, done, limit) - {code}
    ensures Sum(GivenUp(batch, attempts, done + {code}, limit))
         == Sum(GivenUp(batch, attempts, done, limit)) + batch[code]
    ensures Retried(batch, attempts, done + {code}, limit) == Retried(batch, attempts, done, limit)
  {
    Untouched(batch, attempts, unmatched, done, code, limit);
    OneMoreGivenUp(batch, attempts, done, code, limit);
    var lost, retried := GivenUp(batch, attempts, done, limit), Retried(batch, attempts, done, limit);
    SumInserted(lost, code, batch[code]);
    assert lost[code := batch[code]].Keys == lost.Keys + {code};
    MapsOneLess(attempts - Matched(batch, unmatched).Keys, lost.Keys, OneFurther(attempts, retried.Keys), code);
  }

  /** One more code that waits for another flush. */
  lemma RetryOne(batch: Counts, attempts: Counts, unmatched: set<string>, done: set<string>, code: string, limit: nat)
    requires code in batch && code in unmatched && code !in done && !LastAttempt(attempts, code, limit)
    ensures NextAttempts(batch, attempts, unmatched, done + {code}, limit)
         == NextAttempts(batch, attempts, unmatched, done, limit)[code := Count(attempts, code) + 1]
    ensures GivenUp(batch, attempts, done + {code}, limit) == GivenUp(batch, attempts, done, limit)
  {
    OneMoreRetried(batch, attempts, done, code, limit);
    var lost, retried := GivenUp(batch, attempts, done, limit), Retried(batch, attempts, done, limit);
    var more := OneFurther(attempts, retried.Keys);
    assert retried[code := batch[code]].Keys == retried.Keys + {code};
    assert OneFurther(attempts, retried.Keys + {code}) == more[code := Count(attempts, code) + 1];
    MapsOneMore(attempts - Matched(batch, unmatched).Keys - lost.Keys, more, code, Count(attempts, code) + 1);
  }

  lemma RetryOnePending(batch: Counts, attempts: Counts, pending: Counts, done: set<string>, code: string, limit: nat)
    requires code in batch && code !in done && !LastAttempt(attempts, code, limit)
    ensures Plus(pending, Retried(batch, attempts, done + {code}, limit))
         == Added(Plus(pending, Retried(batch, attempts, done, limit)), code, batch[code])
  {
    OneMoreRetried(batch, attempts, done, code, limit);
    PlusInserted(pending, Retried(batch, attempts, done, limit), code, batch[code]);
  }

  /** The fields after the first loop and the turns of the second for the codes in `done`. */
  ghost predicate Halfway(now: Buffer, dropped: nat, b: Buffer, unmatched: set<string>, done: set<string>, lost: nat,
                          limit: nat)
  {
    && now.flushing == b.flushing && now.closed == b.closed
    && now.pending == Plus(b.pending, Retried(b.Batch(), b.attempts, done, limit))
    && now.attempts == NextAttempts(b.Batch(), b.attempts, unmatched, done, limit)
    && dropped == lost + Sum(GivenUp(b.Batch(), b.attempts, done, limit))
  }

  lemma DropStep(now: Buffer, dropped: nat, b: Buffer, unmatched: set<string>, done: set<string>, lost: nat, limit: nat,
                 code: string)
    requires Halfway(now, dropped, b, unmatched, done, lost, limit)
    requires code in b.Batch() && code in unmatched && code !in done && LastAttempt(b.attempts, code, limit)
    ensures Halfway(now.(attempts := now.attempts - {code}), dropped + b.Batch()[code], b, unmatched,
                    done + {code}, lost,
                    limit)
  {
    GiveUpOne(b.Batch(), b.attempts, unmatched, done, code, limit);
  }

  lemma KeepStep(now: Buffer, dropped: nat, b: Buffer, unmatched: set<string>, done: set<string>, lost: nat, limit: nat,
                 code: string)
    requires Halfway(now, dropped, b, unmatched, done, lost, limit)
    requires code in b.Batch() && code in unmatched && code !in done && !LastAttempt(b.attempts, code, limit)
    ensures Halfway(now.(attempts := now.attempts[code := Count(b.attempts, code) + 1],
                         pending := Added(now.pending, code, b.Batch()[code])),
                    dropped, b, unmatched, done + {code}, lost, limit)
  {
    RetryOne(b.Batch(), b.attempts, unmatched, done, code, limit);
    RetryOnePending(b.Batch(), b.attempts, b.pending, done, code, limit);
  }

  lemma NothingDone(batch: Counts, pending: Counts, attempts: Counts, unmatched: set<string>, limit: nat)
    ensures Plus(pending, Retried(batch, attempts, {}, limit)) == pending
    ensures NextAttempts(batch, attempts, unmatched, {}, limit) == attempts - Matched(batch, unmatched).Keys
    ensures Sum(GivenUp(batch, attempts, {}, limit)) == 0
    ensures unmatched - unmatched == {}
  {
    assert Retried(batch, attempts, {}, limit) == map[];
    assert GivenUp(batch, attempts, {}, limit) == map[];
    assert OneFurther(attempts, {}) == map[];
  }

  lemma SkipForeign(batch: Counts, attempts: Counts, done: set<string>, code: string, limit: nat)
    requires code !in batch
    ensures Retried(batch, attempts, done + {code}, limit) == Retried(batch, attempts, done, limit)
    ensures GivenUp(batch, attempts, done + {code}, limit) == GivenUp(batch, attempts, done, limit)
  {
  }

  // ---- every click, over all runs ----

  /** The buffer with the whereabouts of every click recorded so far and the answers of the sink. */
  datatype World = World(b: Buffer, recorded: Counts, applied: Counts, dropped: Counts, replies: seq<Reply>)

  const Start := World(EmptyBuffer, map[], map[], map[], [])

  datatype Step =
    | Record(code: string)
    | Flush                            // by the timer, by a full buffer, or by close
    | Throws
    | Answers(unmatched: set<string>)
    | Clear                            // the end of flush
    | Shut                             // close is called

  predicate Enabled(w: World, t: Step) {
    match t
    case Record(code) => !w.b.closed && code != ""
    case Flush => true
    case Throws => w.b.flushing.Waiting?
    case Answers(_) => w.b.flushing.Waiting?
    case Clear => w.b.flushing == Settled
    case Shut => true
  }

  function Apply(w: World, t: Step, limit: nat): World
    requires Enabled(w, t)
  {
    match t
    case Record(code) => w.(b := Recorded(w.b, code), recorded := Added(w.recorded, code, 1))
    case Flush => w.(b := Taken(w.b))
    case Throws => w.(b := Restored(w.b))
    case Answers(unmatched) =>
      var batch := w.b.Batch();
      w.(b := Answered(w.b, unmatched, limit),
         applied := Plus(w.applied, Matched(batch, unmatched)),
         dropped := Plus(w.dropped, GivenUp(batch, w.b.attempts, unmatched, limit)),
         replies := w.replies + [Reply(batch.Keys, unmatched)])
    case Clear => w.(b := w.b.(flushing := NoFlush))
    case Shut => w.(b := w.b.(closed := true))
  }

  function Run(steps: seq<Step>, limit: nat): World {
    if steps == [] then Start
    else
      var before, t := Run(steps[..|steps| - 1], limit), steps[|steps| - 1];
      if Enabled(before, t) then Apply(before, t, limit) else before
  }

  /** For one code: every click is stored, pending, in flight or dropped; its attempt count is what
      the answers say; and a count belongs to clicks that are still around. */
  predicate CodeOk(w: World, c: string, limit: nat) {
    && Count(w.recorded, c) == Count(w.applied, c) + Count(w.b.pending, c) + Count(w.b.Batch(), c) + Count(w.dropped, c)
    && Count(w.b.attempts, c) == Attempts(w.replies, c, limit)
    && (c in w.b.attempts ==> c in w.b.pending || c in w.b.Batch())
  }

  ghost predicate TotalsOk(w: World) {
    Sum(w.recorded) == Sum(w.applied) + Sum(w.b.pending) + Sum(w.b.Batch()) + Sum(w.dropped)
  }

  lemma PartsOfBatch(batch: Counts, attempts: Counts, unmatched: set<string>, limit: nat)
    ensures Sum(batch) == Sum(Matched(batch, unmatched)) + Sum(Retried(batch, attempts, unmatched, limit))
                          + Sum(GivenUp(batch, attempts, unmatched, limit))
  {
    var retried, lost := Retried(batch, attempts, unmatched, limit), GivenUp(batch, attempts, unmatched, limit);
    assert Plus(Matched(batch, unmatched), Plus(retried, lost)) == batch;
    SumPlus(retried, lost);
    SumPlus(Matched(batch, unmatched), Plus(retried, lost));
  }

  lemma TotalsKept(w: World, t: Step, limit: nat)
    requires TotalsOk(w) && Enabled(w, t)
    ensures TotalsOk(Apply(w, t, limit))
  {
    var batch := w.b.Batch();
    match t
    case Record(code) =>
      SumAdded(w.recorded, code, 1);
      SumAdded(w.b.pending, code, 1);
    case Throws =>
      SumPlus(w.b.pending, batch);
    case Answers(unmatched) =>
      PartsOfBatch(batch, w.b.attempts, unmatched, limit);
      SumPlus(w.applied, Matched(batch, unmatched));
      SumPlus(w.b.pending, Retried(batch, w.b.attempts, unmatched, limit));
      SumPlus(w.dropped, GivenUp(batch, w.b.attempts, unmatched, limit));
    case _ =>
  }

  /** Each click of the batch goes to exactly one place. */
  lemma AnswerSplits(batch: Counts, attempts: Counts, unmatched: set<string>, limit: nat, c: string)
    ensures Count(batch, c) == Count(Matched(batch, unmatched), c)
                             + Count(Retried(batch, attempts, unmatched, limit), c)
                               + Count(GivenUp(batch, attempts, unmatched, limit), c)
    ensures c in NextAttempts(batch, attempts, unmatched, unmatched, limit) ==>
              (c in attempts && c !in batch) || c in Retried(batch, attempts, unmatched, limit)
  {
  }

  lemma PlusCount(m: Counts, n: Counts, c: string)
    ensures Count(Plus(m, n), c) == Count(m, c) + Count(n, c)
    ensures c in Plus(m, n) <==> c in m || c in n
  {
  }

  lemma AnswerKeepsCode(w: World, t: Step, c: string, limit: nat)
    requires CodeOk(w, c, limit) && Enabled(w, t) && t.Answers?
    ensures CodeOk(Apply(w, t, limit), c, limit)
  {
    var w', batch, attempts := Apply(w, t, limit), w.b.Batch(), w.b.attempts;
    assert w'.replies[..|w'.replies| - 1] == w.replies;
    AnswerSplits(batch, attempts, t.unmatched, limit, c);
    AttemptsAfter(batch, attempts, t.unmatched, limit, c);
    PlusCount(w.applied, Matched(batch, t.unmatched), c);
    PlusCount(w.b.pending, Retried(batch, attempts, t.unmatched, limit), c);
    PlusCount(w.dropped, GivenUp(batch, attempts, t.unmatched, limit), c);
  }

  lemma CodeKept(w: World, t: Step, c: string, limit: nat)
    requires CodeOk(w, c, limit) && Enabled(w, t)
    ensures CodeOk(Apply(w, t, limit), c, limit)
  {
    if t.Answers? {
      AnswerKeepsCode(w, t, c, limit);
    }
  }

  /** In every run, with answers and failures of the sink in any order, no click is lost or counted
      twice, per code and in total. */
  lemma {:induction false} ClicksConserved(steps: seq<Step>, c: string, limit: nat)
    ensures CodeOk(Run(steps, limit), c, limit) && TotalsOk(Run(steps, limit))
  {
    if steps != [] {
      var before, t := Run(steps[..|steps| - 1], limit), steps[|steps| - 1];
      ClicksConserved(steps[..|steps| - 1], c, limit);
      if Enabled(before, t) {
        CodeKept(before, t, c, limit);
        TotalsKept(before, t, limit);
      }
    }
  }

  /** Clicks are applied by answers only, and then all those of the batch whose code was matched. */
  lemma AppliedAtReply(w: World, t: Step, c: string, limit: nat)
    requires Enabled(w, t)
    ensures Count(Apply(w, t, limit).applied, c)
         == Count(w.applied, c) + if t.Answers? && c in w.b.Batch() && c !in t.unmatched then w.b.Batch()[c] else 0
  {
  }

  /** The two running totals of the program, stepped as its code steps them. */
  datatype Totals = Totals(pendingTotal: nat, dropped: nat)

  ghost function Stepped(n: Totals, w: World, t: Step, limit: nat): Totals {
    match t
    case Record(_) => n.(pendingTotal := n.pendingTotal + 1)
    case Flush => if w.b.flushing == NoFlush && w.b.pending != map[] then n.(pendingTotal := 0) else n
    case Throws => n.(pendingTotal := n.pendingTotal + Sum(w.b.Batch()))
    case Answers(unmatched) =>
      Totals(n.pendingTotal + Sum(Retried(w.b.Batch(), w.b.attempts, unmatched, limit)),
             n.dropped + Sum(GivenUp(w.b.Batch(), w.b.attempts, unmatched, limit)))
    case _ => n
  }

  ghost function RunTotals(steps: seq<Step>, limit: nat): Totals {
    if steps == [] then Totals(0, 0)
    else
      var front, t := steps[..|steps| - 1], steps[|steps| - 1];
      if Enabled(Run(front, limit), t) then Stepped(RunTotals(front, limit), Run(front, limit), t, limit)
      else RunTotals(front, limit)
  }

  lemma StepCounts(n: Totals, w: World, t: Step, limit: nat)
    requires Enabled(w, t) && n.pendingTotal == Sum(w.b.pending) && n.dropped == Sum(w.dropped)
    ensures Stepped(n, w, t, limit).pendingTotal == Sum(Apply(w, t, limit).b.pending)
    ensures Stepped(n, w, t, limit).dropped == Sum(Apply(w, t, limit).dropped)
  {
    match t
    case Record(code) => SumAdded(w.b.pending, code, 1);
    case Throws => SumPlus(w.b.pending, w.b.Batch());
    case Answers(unmatched) => AnswerCounts(n, w, unmatched, limit);
    case _ =>
  }

  lemma AnswerCounts(n: Totals, w: World, unmatched: set<string>, limit: nat)
    requires w.b.flushing.Waiting? && n.pendingTotal == Sum(w.b.pending) && n.dropped == Sum(w.dropped)
    ensures Stepped(n, w, Answers(unmatched), limit).pendingTotal == Sum(Apply(w, Answers(unmatched), limit).b.pending)
    ensures Stepped(n, w, Answers(unmatched), limit).dropped == Sum(Apply(w, Answers(unmatched), limit).dropped)
  {
    SumPlus(w.b.pending, Retried(w.b.Batch(), w.b.attempts, unmatched, limit));
    SumPlus(w.dropped, GivenUp(w.b.Batch(), w.b.attempts, unmatched, limit));
  }

  /** In every run pendingTotal is the sum of the pending map, and `dropped` that of all clicks given
      up. */
  lemma {:induction false} CountersAreSums(steps: seq<Step>, limit: nat)
    ensures RunTotals(steps, limit).pendingTotal == Sum(Run(steps, limit).b.pending)
    ensures RunTotals(steps, limit).dropped == Sum(Run(steps, limit).dropped)
  {
    if steps != [] {
      var front, t := steps[..|steps| - 1], steps[|steps| - 1];
      CountersAreSums(front, limit);
      if Enabled(Run(front, limit), t) {
        StepCounts(RunTotals(front, limit), Run(front, limit), t, limit);
      }
    }
  }

  lemma RunOn(steps: seq<Step>, t: Step, limit: nat)
    ensures Run([], limit) == Start
    ensures Run(steps + [t], limit) == var w := Run(steps, limit); if Enabled(w, t) then Apply(w, t, limit) else w
  {
    assert (steps + [t])[..|steps|] == steps;
  }

  /** A click on a code that has no link, and `n` flushes that all answer so. */
  function FruitlessSteps(c: string, n: nat): seq<Step> {
    if n == 0 then [Record(c)] else FruitlessSteps(c, n - 1) + [Flush] + [Answers({c})] + [Clear]
  }

  /** The click is pending and was called unmatched `n` times. */
  function StillTried(c: string, n: nat): Buffer {
    Buffer(map[c := 1], NoFlush, false, if n == 0 then map[] else map[c := n])
  }

  lemma FruitlessFlush(w: World, c: string, n: nat, limit: nat)
    requires w.b == StillTried(c, n)
    ensures Enabled(w, Flush)
    ensures Apply(w, Flush, limit) == w.(b := Buffer(map[], Flush.Waiting(w.b.pending), false, w.b.attempts))
  {
    assert c in w.b.pending;
  }

  lemma PlusNothing(m: Counts, none: Counts)
    requires none == map[]
    ensures Plus(m, none) == m && Plus(none, m) == m
  {
  }

  lemma OneIsRetried(batch: Counts, attempts: Counts, c: string, n: nat, limit: nat)
    requires batch == map[c := 1] && n + 1 < limit && attempts == if n == 0 then map[] else map[c := n]
    ensures Retried(batch, attempts, {c}, limit) == batch && GivenUp(batch, attempts, {c}, limit) == map[]
    ensures NextAttempts(batch, attempts, {c}, {c}, limit) == map[c := n + 1]
  {
    assert Matched(batch, {c}) == map[];
    var lost, retried := GivenUp(batch, attempts, {c}, limit), Retried(batch, attempts, {c}, limit);
    assert lost == map[] && retried == batch;
    assert OneFurther(attempts, retried.Keys) == map[c := n + 1];
  }

  lemma OneIsGivenUp(batch: Counts, attempts: Counts, c: string, n: nat, limit: nat)
    requires batch == map[c := 1] && n + 1 >= limit && attempts == if n == 0 then map[] else map[c := n]
    ensures Retried(batch, attempts, {c}, limit) == map[] && GivenUp(batch, attempts, {c}, limit) == batch
    ensures NextAttempts(batch, attempts, {c}, {c}, limit) == map[]
  {
    var lost, retried := GivenUp(batch, attempts, {c}, limit), Retried(batch, attempts, {c}, limit);
    assert lost == batch && retried == map[];
  }

  lemma FruitlessAnswer(w: World, batch: Counts, c: string, n: nat, limit: nat)
    requires w.b == Buffer(map[], Flush.Waiting(batch), false, StillTried(c, n).attempts) && batch == map[c := 1]
    requires c !in w.dropped
    ensures Enabled(w, Answers({c}))
    ensures var t := Apply(w, Answers({c}), limit);
            && t.b.flushing == Settled && !t.b.closed
            && if n + 1 < limit then t.b.pending == batch && t.b.attempts == map[c := n + 1] && t.dropped == w.dropped
               else t.b.pending == map[] && t.b.attempts == map[] && Count(t.dropped, c) == 1
  {
    if n + 1 < limit {
      OneIsRetried(batch, w.b.attempts, c, n, limit);
      PlusNothing(batch, w.b.pending);
      PlusNothing(w.dropped, GivenUp(batch, w.b.attempts, {c}, limit));
    } else {
      OneIsGivenUp(batch, w.b.attempts, c, n, limit);
      PlusNothing(w.b.pending, Retried(batch, w.b.attempts, {c}, limit));
      PlusCount(w.dropped, batch, c);
    }
  }

  lemma WorldRound(w: World, c: string, n: nat, limit: nat)
    requires w.b == StillTried(c, n) && c !in w.dropped
    ensures Enabled(w, Flush) && Enabled(Apply(w, Flush, limit), Answers({c}))
    ensures var t := Apply(Apply(w, Flush, limit), Answers({c}), limit);
            && Enabled(t, Clear)
            && var after := Apply(t, Clear, limit);
               if n + 1 < limit then after.b == StillTried(c, n + 1) && c !in after.dropped
               else after.b == EmptyBuffer && Count(after.dropped, c) == 1
  {
    FruitlessFlush(w, c, n, limit);
    FruitlessAnswer(Apply(w, Flush, limit), w.b.pending, c, n, limit);
  }

  /** After `n` fruitless flushes the click is pending still, or dropped if those were as many as the
      limit. */
  predicate Fruitless(w: World, c: string, n: nat, limit: nat) {
    if n < limit then w.b == StillTried(c, n) && c !in w.dropped
    else w.b == EmptyBuffer && Count(w.dropped, c) == 1
  }

  lemma FruitlessRound(front: seq<Step>, steps: seq<Step>, c: string, n: nat, limit: nat)
    requires Fruitless(Run(front, limit), c, n, limit) && n < limit
    requires steps == front + [Flush] + [Answers({c})] + [Clear]
    ensures Fruitless(Run(steps, limit), c, n + 1, limit)
  {
    RunOn(front, Flush, limit);
    RunOn(front + [Flush], Answers({c}), limit);
    RunOn(front + [Flush] + [Answers({c})], Clear, limit);
    WorldRound(Run(front, limit), c, n, limit);
  }

  lemma FruitlessStart(c: string, steps: seq<Step>, limit: nat)
    requires c != "" && steps == [Record(c)] && limit >= 1
    ensures Fruitless(Run(steps, limit), c, 0, limit)
  {
    RunOn([], Record(c), limit);
    assert [] + [Record(c)] == steps;
  }

  /** A click whose code has no link is tried with every flush before the limit-th and dropped with that
      one. */
  lemma {:induction false} FruitlessClickIsDropped(c: string, n: nat, limit: nat)
    requires c != "" && n <= limit && limit >= 1
    ensures Fruitless(Run(FruitlessSteps(c, n), limit), c, n, limit)
  {
    var steps := FruitlessSteps(c, n);
    if n == 0 {
      FruitlessStart(c, steps, limit);
    } else {
      FruitlessClickIsDropped(c, n - 1, limit);
      FruitlessRound(FruitlessSteps(c, n - 1), steps, c, n - 1, limit);
    }
  }

  /** Clicks of a code are dropped only by an answer that calls it unmatched for the limit-th time
      in a row, and then all clicks of it in the batch are. */
  lemma DroppedAtTheLimit(steps: seq<Step>, t: Step, c: string, limit: nat)
    requires limit >= 1 && Enabled(Run(steps, limit), t)
    ensures var w, w' := Run(steps, limit), Apply(Run(steps, limit), t, limit);
            if t.Answers? && c in w.b.Batch() && c in t.unmatched && TrailingUnmatched(w'.replies, c) % limit == 0
            then Count(w'.dropped, c) == Count(w.dropped, c) + w.b.Batch()[c]
            else Count(w'.dropped, c) == Count(w.dropped, c)
  {
    var w := Run(steps, limit);
    ClicksConserved(steps, c, limit);
    if t.Answers? && c in w.b.Batch() && c in t.unmatched {
      RunsOutEveryLimit(w.replies, c, limit, Reply(w.b.Batch().Keys, t.unmatched));
    }
  }
}
