/** Collecting request metrics: in one process (src/metrics.ts), or in per-worker batches that the
    primary merges (src/cluster-metrics.ts). */
module Metrics {
  import opened Wrappers
  import opened Numbers
  import opened Snapshots

  // ---- rendering ----

  /** No more observations in the buckets than were counted. */
  predicate Bounded(d: Duration) {
    SumOf(d.buckets) <= d.count
  }

  predicate AllBounded(s: seq<Series>) {
    forall i :: 0 <= i < |s| ==> Bounded(s[i].duration)
  }

  lemma AddEntryBounded(target: seq<Series>, e: Series)
    requires AllBounded(target) && Bounded(e.duration)
    ensures AllBounded(AddEntry(target, e))
  {
    var i := Find(target, Key(e));
    if i < |target| {
      var d := target[i].duration;
      SumOfPlus(d.buckets, e.duration.buckets, PlusBuckets(d.buckets, e.duration.buckets));
    } else {
      NewSeriesIsZero(e);
    }
  }

  /** Merging keeps the buckets within the counts. */
  lemma {:induction false} AddSeriesBounded(target: seq<Series>, source: seq<Series>)
    requires AllBounded(target) && AllBounded(source)
    ensures AllBounded(AddSeries(target, source))
  {
    if source != [] {
      AddSeriesBounded(target, source[..|source| - 1]);
      AddEntryBounded(AddSeries(target, source[..|source| - 1]), source[|source| - 1]);
    }
  }

  /** The values of the le-buckets, each the sum up to its own: they never fall, and the +Inf
      bucket, which is the count, is not below any of them exactly when the series is bounded. That
      every series of a collector is, and every merged one, is CollectedBounded and MergedBounded. */
  method RenderBuckets(d: Duration) returns (lines: seq<nat>)
    ensures |lines| == 11 && forall i :: 0 <= i < 11 ==> lines[i] == SumOf(d.buckets[..i + 1])
    ensures forall i, j :: 0 <= i < j < 11 ==> lines[i] <= lines[j]
    ensures (forall i :: 0 <= i < 11 ==> lines[i] <= d.count) <==> Bounded(d)
  {
    lines := [];
    var cumulative := 0;
    for index := 0 to 11
      invariant |lines| == index && cumulative == SumOf(d.buckets[..index])
      invariant forall i :: 0 <= i < index ==> lines[i] == SumOf(d.buckets[..i + 1]) && lines[i] <= cumulative
      invariant forall i, j :: 0 <= i < j < index ==> lines[i] <= lines[j]
    {
      assert d.buckets[..index + 1][..index] == d.buckets[..index];
      cumulative := cumulative + d.buckets[index];
      SumOfPrefix(d.buckets, index + 1);
      lines := lines + [cumulative];
    }
    assert d.buckets[..11] == d.buckets;
    assert lines[10] == SumOf(d.buckets);
  }

  // ---- calls ----

  /** A call of the collector interface. */
  datatype Call =
    | Request(verb: string, route: string, status: int, seconds: real)
    | CountCreated
    | CountRedirect
    | CountMiss
    | Increment(name: string, value: int)

  /** Where a call is collected: the worker's one-observation buckets leave out a zero duration. */
  datatype Place = InWorker | InProcess

  predicate Accepted(verb: string, route: string, status: int, seconds: real) {
    verb != "" && route != "" && 100 <= status <= 599 && seconds >= 0.0
  }

  predicate ZeroCall(c: Call) {
    c.Request? && Accepted(c.verb, c.route, c.status, c.seconds) && c.seconds == 0.0
  }

  function RequestSeries(verb: string, route: string, status: nat, seconds: real, place: Place): Series {
    Series(verb, route, status, 1,
           Observation(if place == InWorker then OneHot(seconds) else SeenBuckets(seconds), seconds))
  }

  /** What a call adds, as a snapshot of its own. */
  function Delta(c: Call, place: Place): (s: Snapshot)
    ensures Valid(s)
  {
    match c
    case Request(verb, route, status, seconds) =>
      if Accepted(verb, route, status, seconds)
      then EmptySnapshot.(series := [RequestSeries(verb, route, status, seconds, place)]) else EmptySnapshot
    case CountCreated => EmptySnapshot.(created := 1)
    case CountRedirect => EmptySnapshot.(redirects := 1)
    case CountMiss => EmptySnapshot.(misses := 1)
    case Increment(name, value) =>
      if Counts(name, value) then EmptySnapshot.(counters := map[name := value]) else EmptySnapshot
  }

  /** A collector after a sequence of calls. */
  function Collected(calls: seq<Call>, place: Place): (s: Snapshot)
    ensures Valid(s)
  {
    if calls == [] then EmptySnapshot
    else AddSnapshot(Collected(calls[..|calls| - 1], place), Delta(calls[|calls| - 1], place))
  }

  lemma AddSeriesOnly(s: Snapshot, e: Series)
    requires Valid(s)
    ensures AddSnapshot(s, EmptySnapshot.(series := [e])) == s.(series := AddEntry(s.series, e))
    ensures Valid(s.(series := AddEntry(s.series, e)))
  {
    AddNothing(s);
    AddEntryUnique(s.series, e);
    assert [e][..0] == [];
  }

  /** The in-process collector. */
  class InProcessMetrics {
    var snapshot: Snapshot
    var series: map<string, nat>

    ghost predicate Ready()
      reads this
    {
      Valid(snapshot) && Located(series, snapshot.series)
    }

    constructor ()
      ensures Ready() && snapshot == Collected([], InProcess)
    {
      snapshot, series := EmptySnapshot, map[];
    }

    method Request(verb: string, route: string, status: int, seconds: real)
      requires Ready()
      modifies this
      ensures Ready()
      ensures snapshot == AddSnapshot(old(snapshot), Delta(Call.Request(verb, route, status, seconds), InProcess))
    {
      if verb == "" || route == "" || status < 100 || status > 599 || seconds < 0.0 {
        AddNothing(snapshot);
        return;
      }
      AddSeriesOnly(snapshot, RequestSeries(verb, route, status, seconds, InProcess));
      var all, positions := Observe(snapshot.series, series, verb, route, status, seconds);
      snapshot, series := snapshot.(series := all), positions;
    }

    /** The request's series, created when it is new, takes one observation. */
    static method Observe(before: seq<Series>, series: map<string, nat>, verb: string, route: string, status: nat,
                          seconds: real)
      returns (all: seq<Series>, positions: map<string, nat>)
      requires UniqueKeys(before) && Located(series, before) && seconds >= 0.0
      ensures Located(positions, all) && UniqueKeys(all)
      ensures all == AddEntry(before, RequestSeries(verb, route, status, seconds, InProcess))
    {
      ghost var e := RequestSeries(verb, route, status, seconds, InProcess);
      var p;
      all, positions, p := OpenSeries(before, series, verb, route, status, e);
      LocatedKept(positions, all, p, MergedEntry(all[p], e));
      var duration := ObserveDuration(all[p].duration, seconds);
      all := all[p := all[p].(requests := all[p].requests + 1, duration := duration)];
    }

    method Increment(name: string, value: int)
      requires Ready()
      modifies this`snapshot
      ensures Ready() && snapshot == AddSnapshot(old(snapshot), Delta(Call.Increment(name, value), InProcess))
    {
      AddNothing(snapshot);
      AddCounterIsPlus(snapshot.counters, name, value);
      snapshot := snapshot.(counters := AddCounter(snapshot.counters, name, value));
    }
  }

  lemma AddCounterIsPlus(counters: map<string, nat>, name: string, value: int)
    requires CleanCounters(counters)
    ensures CleanCounters(AddCounter(counters, name, value))
    ensures Counts(name, value) ==> AddCounter(counters, name, value) == PlusCounters(counters, map[name := value])
  {
    if Counts(name, value) {
      var one: map<string, nat> := map[name := value];
      assert Clean(one) == one;
      assert AddCounter(counters, name, value) == PlusCounters(counters, one);
    }
  }

  /** A worker's collector: it holds what is not sent yet. */
  class ClusterMetrics {
    var pendingSnapshot: Snapshot

    constructor ()
      ensures pendingSnapshot == Collected([], InWorker)
    {
      pendingSnapshot := EmptySnapshot;
    }

    method Request(verb: string, route: string, status: int, seconds: real)
      requires Valid(pendingSnapshot)
      modifies this
      ensures pendingSnapshot
           == AddSnapshot(old(pendingSnapshot), Delta(Call.Request(verb, route, status, seconds), InWorker))
    {
      AddNothing(pendingSnapshot);
      if verb == "" || route == "" || status < 100 || status > 599 || seconds < 0.0 {
        return;
      }
      var buckets: Buckets := NoBuckets();
      for index := 0 to 11
        invariant forall i :: 0 <= i < 11 ==> buckets[i] == if i < index then OneHot(seconds)[i] else 0
      {
        var previousBound := if index == 0 then 0.0 else BUCKETS[index - 1];
        buckets := buckets[index := if seconds <= BUCKETS[index] && seconds > previousBound then 1 else 0];
      }
      assert buckets == OneHot(seconds);
      var single := EmptySnapshot.(series := [Series(verb, route, status, 1, Duration(buckets, seconds, 1))]);
      pendingSnapshot := AddMetricsSnapshot(pendingSnapshot, single);
    }

    method Increment(name: string, value: int)
      requires Valid(pendingSnapshot)
      modifies this
      ensures pendingSnapshot == AddSnapshot(old(pendingSnapshot), Delta(Call.Increment(name, value), InWorker))
    {
      AddNothing(pendingSnapshot);
      AddCounterIsPlus(pendingSnapshot.counters, name, value);
      pendingSnapshot := pendingSnapshot.(counters := AddCounter(pendingSnapshot.counters, name, value));
    }

    /** Hands everything pending to the channel, or keeps it all when there is none or it throws. */
    method Flush(connected: bool, sendThrows: bool) returns (sent: Option<Snapshot>)
      requires Valid(pendingSnapshot)
      modifies this
      ensures connected && !sendThrows && old(pendingSnapshot) != EmptySnapshot
              ==> sent == Some(old(pendingSnapshot)) && pendingSnapshot == EmptySnapshot
      ensures !connected || sendThrows || old(pendingSnapshot) == EmptySnapshot
              ==> sent == None && pendingSnapshot == old(pendingSnapshot)
    {
      sent := None;
      if !connected {
        return;
      }
      var snapshot := pendingSnapshot;
      if snapshot.created == 0 && snapshot.redirects == 0 && snapshot.misses == 0 && snapshot.series == []
         && snapshot.counters == map[] {
        return;
      }
      pendingSnapshot := EmptySnapshot;
      if sendThrows {
        AddToNothing(snapshot);
        pendingSnapshot := AddMetricsSnapshot(pendingSnapshot, snapshot);
      } else {
        sent := Some(snapshot);
      }
    }
  }

  /** The primary's sum of all batches. */
  class MetricsAggregator {
    var snapshot: Snapshot

    constructor ()
      ensures snapshot == Merged([])
    {
      snapshot := EmptySnapshot;
    }

    method Add(batch: Snapshot)
      requires Valid(snapshot)
      modifies this
      ensures snapshot == AddSnapshot(old(snapshot), batch)
    {
      snapshot := AddMetricsSnapshot(snapshot, batch);
    }
  }

  // ---- many workers, or one collector ----

  /** The primary after a sequence of batches, each collected by a worker. */
  function Merged(batches: seq<seq<Call>>): (s: Snapshot)
    ensures Valid(s)
  {
    if batches == [] then EmptySnapshot
    else AddSnapshot(Merged(batches[..|batches| - 1]), Collected(batches[|batches| - 1], InWorker))
  }

  function Flat(batches: seq<seq<Call>>): seq<Call> {
    if batches == [] then [] else Flat(batches[..|batches| - 1]) + batches[|batches| - 1]
  }

  function Answers(calls: seq<Call>, place: Place, q: Question): real {
    if calls == [] then 0.0 else Answers(calls[..|calls| - 1], place, q) + Ask(Delta(calls[|calls| - 1], place), q)
  }

  lemma NothingAnswersZero(q: Question)
    ensures Ask(EmptySnapshot, q) == 0.0
  {
  }

  lemma {:induction false} CollectedAnswers(calls: seq<Call>, place: Place, q: Question)
    ensures Ask(Collected(calls, place), q) == Answers(calls, place, q)
  {
    if calls == [] {
      NothingAnswersZero(q);
    } else {
      var front := calls[..|calls| - 1];
      CollectedAnswers(front, place, q);
      MergeAdds(Collected(front, place), Delta(calls[|calls| - 1], place), q);
    }
  }

  lemma {:induction false} AnswersConcat(a: seq<Call>, b: seq<Call>, place: Place, q: Question)
    ensures Answers(a + b, place, q) == Answers(a, place, q) + Answers(b, place, q)
  {
    if b == [] {
      assert a + b == a;
    } else {
      assert (a + b)[..|a + b| - 1] == a + b[..|b| - 1];
      AnswersConcat(a, b[..|b| - 1], place, q);
    }
  }

  lemma {:induction false} MergedAnswers(batches: seq<seq<Call>>, q: Question)
    ensures Ask(Merged(batches), q) == Answers(Flat(batches), InWorker, q)
  {
    if batches == [] {
      NothingAnswersZero(q);
    } else {
      var front, last := batches[..|batches| - 1], batches[|batches| - 1];
      MergedAnswers(front, q);
      MergeAdds(Merged(front), Collected(last, InWorker), q);
      CollectedAnswers(last, InWorker, q);
      AnswersConcat(Flat(front), last, InWorker, q);
    }
  }

  lemma AnswersWithout(b: seq<Call>, i: nat, place: Place, q: Question)
    requires i < |b|
    ensures Answers(b, place, q) == Answers(b[..i] + b[i + 1..], place, q) + Ask(Delta(b[i], place), q)
  {
    assert b == b[..i] + [b[i]] + b[i + 1..];
    AnswersConcat(b[..i] + [b[i]], b[i + 1..], place, q);
    AnswersConcat(b[..i], b[i + 1..], place, q);
    assert (b[..i] + [b[i]])[..i] == b[..i];
  }

  lemma WithoutOne(b: seq<Call>, i: nat)
    requires i < |b|
    ensures multiset(b) == multiset(b[..i] + b[i + 1..]) + multiset{b[i]}
  {
    assert b == b[..i] + [b[i]] + b[i + 1..];
  }

  lemma PositionOf(a: seq<Call>, b: seq<Call>) returns (i: nat)
    requires a != [] && multiset(a) == multiset(b)
    ensures i < |b| && b[i] == a[|a| - 1] && multiset(a[..|a| - 1]) == multiset(b[..i] + b[i + 1..])
  {
    var last := |a| - 1;
    WithoutOne(a, last);
    assert a[..last] + a[last + 1..] == a[..last];
    assert a[last] in multiset(b);
    i :| 0 <= i < |b| && b[i] == a[last];
    WithoutOne(b, i);
    assert multiset(a[..last]) == multiset(a) - multiset{a[last]};
    assert multiset(b[..i] + b[i + 1..]) == multiset(b) - multiset{b[i]};
  }

  /** The order of calls does not matter. */
  lemma {:induction false} AnswersPermuted(a: seq<Call>, b: seq<Call>, place: Place, q: Question)
    requires multiset(a) == multiset(b)
    ensures Answers(a, place, q) == Answers(b, place, q)
    decreases |a|
  {
    if a == [] {
      assert |multiset(b)| == 0;
    } else {
      var i := PositionOf(a, b);
      AnswersWithout(b, i, place, q);
      AnswersPermuted(a[..|a| - 1], b[..i] + b[i + 1..], place, q);
    }
  }

  lemma DeltaSame(c: Call)
    ensures !ZeroCall(c) ==> Delta(c, InWorker) == Delta(c, InProcess)
  {
    if c.Request? && Accepted(c.verb, c.route, c.status, c.seconds) {
      OneHotExactlyWhenPositive(c.seconds);
    }
  }

  lemma DeltaBelow(c: Call, key: string)
    ensures var q := Of(key, Bucket(0));
            Ask(Delta(c, InWorker), q) <= Ask(Delta(c, InProcess), q)
    ensures var q := Of(key, Bucket(0));
            ZeroCall(c) && key == SeriesKey(c.verb, c.route, c.status)
            ==> Ask(Delta(c, InWorker), q) < Ask(Delta(c, InProcess), q)
  {
    var q := Of(key, Bucket(0));
    if ZeroCall(c) {
      OneHotExactlyWhenPositive(c.seconds);
      var w := RequestSeries(c.verb, c.route, c.status, c.seconds, InWorker);
      var p := RequestSeries(c.verb, c.route, c.status, c.seconds, InProcess);
      assert [w][..0] == [] && [p][..0] == [];
      assert SeriesNumber([w], key, Bucket(0)) == EntryNumber(w, key, Bucket(0));
      assert SeriesNumber([p], key, Bucket(0)) == EntryNumber(p, key, Bucket(0));
    } else {
      DeltaSame(c);
    }
  }

  lemma {:induction false} AnswersSame(calls: seq<Call>, q: Question)
    requires forall c :: c in calls ==> !ZeroCall(c)
    ensures Answers(calls, InWorker, q) == Answers(calls, InProcess, q)
  {
    if calls != [] {
      AnswersSame(calls[..|calls| - 1], q);
      DeltaSame(calls[|calls| - 1]);
    }
  }

  lemma {:induction false} AnswersBelow(calls: seq<Call>, key: string)
    ensures var q := Of(key, Bucket(0)); Answers(calls, InWorker, q) <= Answers(calls, InProcess, q)
    ensures var q := Of(key, Bucket(0));
            (exists c :: c in calls && ZeroCall(c) && SeriesKey(c.verb, c.route, c.status) == key)
            ==> Answers(calls, InWorker, q) < Answers(calls, InProcess, q)
  {
    if calls != [] {
      AnswersBelow(calls[..|calls| - 1], key);
      DeltaBelow(calls[|calls| - 1], key);
      assert forall c :: c in calls ==> c in calls[..|calls| - 1] || c == calls[|calls| - 1];
    }
  }

  /** However the calls are split over workers and batches, and whatever order the batches arrive
      in, the merged snapshot agrees with one collector fed the same calls exactly when no accepted
      request took no time at all. */
  lemma MergedAgreesExactlyWithoutZeroes(calls: seq<Call>, batches: seq<seq<Call>>)
    requires multiset(calls) == multiset(Flat(batches))
    ensures Agree(Merged(batches), Collected(calls, InProcess)) <==> forall c :: c in calls ==> !ZeroCall(c)
  {
    forall q
      ensures Ask(Merged(batches), q) == Answers(calls, InWorker, q)
      ensures Ask(Collected(calls, InProcess), q) == Answers(calls, InProcess, q)
    {
      MergedAnswers(batches, q);
      AnswersPermuted(calls, Flat(batches), InWorker, q);
      CollectedAnswers(calls, InProcess, q);
    }
    if forall c :: c in calls ==> !ZeroCall(c) {
      forall q
        ensures Ask(Merged(batches), q) == Ask(Collected(calls, InProcess), q)
      {
        AnswersSame(calls, q);
      }
    } else {
      var c :| c in calls && ZeroCall(c);
      var key := SeriesKey(c.verb, c.route, c.status);
      AnswersBelow(calls, key);
      assert Ask(Merged(batches), Of(key, Bucket(0))) != Ask(Collected(calls, InProcess), Of(key, Bucket(0)));
    }
  }

  // ---- what a collector says, in terms of its calls ----

  /** The durations of the accepted requests of a series. */
  function Durations(calls: seq<Call>, key: string): seq<real> {
    if calls == [] then []
    else
      var c := calls[|calls| - 1];
      Durations(calls[..|calls| - 1], key)
      + if c.Request? && c.verb != "" && c.route != "" && 100 <= c.status <= 599 && c.seconds >= 0.0
           && SeriesKey(c.verb, c.route, c.status) == key then [c.seconds] else []
  }

  function Total(durations: seq<real>): real {
    if durations == [] then 0.0 else Total(durations[..|durations| - 1]) + durations[|durations| - 1]
  }

  /** A duration belongs to the bucket between two bounds; zero is in no bucket of a worker's. */
  predicate FallsIn(seconds: real, i: nat, place: Place) {
    i < 11 && seconds <= BUCKETS[i]
    && (if i > 0 then BUCKETS[i - 1] < seconds else place == InProcess || 0.0 < seconds)
  }

  function HowMany(durations: seq<real>, i: nat, place: Place): nat {
    if durations == [] then 0
    else
      HowMany(durations[..|durations| - 1], i, place) + if FallsIn(durations[|durations| - 1], i, place) then 1 else 0
  }

  /** All that well-formed increments of a counter add up to. */
  function Increments(calls: seq<Call>, name: string): nat {
    if calls == [] then 0
    else
      var c := calls[|calls| - 1];
      Increments(calls[..|calls| - 1], name) + if c.Increment? && c.name == name && c.value > 0 then c.value else 0
  }

  predicate WellFormed(name: string) {
    && 1 <= |name| <= 64 && name[0] in "abcdefghijklmnopqrstuvwxyz"
    && forall i :: 0 <= i < |name| ==> name[i] in "abcdefghijklmnopqrstuvwxyz" || name[i] in "0123456789_"
  }

  lemma SmallLetter(c: char)
    ensures 'a' <= c <= 'z' <==> c in "abcdefghijklmnopqrstuvwxyz"
  {
    var letters := "abcdefghijklmnopqrstuvwxyz";
    if 'a' <= c <= 'z' {
      assert letters[c as int - 'a' as int] == c;
    }
  }

  lemma CounterNames(name: string)
    ensures IsCounterName(name) <==> WellFormed(name)
  {
    forall i | 0 <= i < |name|
      ensures 'a' <= name[i] <= 'z' <==> name[i] in "abcdefghijklmnopqrstuvwxyz"
      ensures '0' <= name[i] <= '9' || name[i] == '_' <==> name[i] in "0123456789_"
    {
      SmallLetter(name[i]);
    }
  }

  lemma BucketFallsIn(seconds: real, i: nat, place: Place)
    requires seconds >= 0.0 && i < 11
    ensures (if place == InWorker then OneHot(seconds) else SeenBuckets(seconds))[i]
         == if FallsIn(seconds, i, place) then 1 else 0
  {
    var j := BucketFrom(seconds, 0);
    if i > 0 && j < i {
      BoundsGrow(j, i - 1);
    }
  }

  /** What a series of these durations says. */
  function Said(durations: seq<real>, m: Measure, place: Place): real {
    match m
    case Requests => |durations| as real
    case Count => |durations| as real
    case Sum => Total(durations)
    case Bucket(i) => HowMany(durations, i, place) as real
  }

  lemma SaidOfOne(seconds: real, m: Measure, place: Place)
    ensures Said([], m, place) == 0.0
    ensures Said([seconds], m, place)
         == match m
            case Sum => seconds
            case Bucket(i) => if FallsIn(seconds, i, place) then 1.0 else 0.0
            case _ => 1.0
  {
    assert [seconds][..0] == [];
  }

  lemma NumberOfOne(c: Call, m: Measure, place: Place)
    requires c.Request? && Accepted(c.verb, c.route, c.status, c.seconds)
    ensures Number(RequestSeries(c.verb, c.route, c.status, c.seconds, place), m) == Said([c.seconds], m, place)
  {
    SaidOfOne(c.seconds, m, place);
    if m.Bucket? && m.index < 11 {
      BucketFallsIn(c.seconds, m.index, place);
    }
  }

  lemma DeltaSays(c: Call, place: Place, key: string, m: Measure)
    ensures Ask(Delta(c, place), Of(key, m)) == Said(Durations([c], key), m, place)
  {
    assert [c][..0] == [];
    if c.Request? && Accepted(c.verb, c.route, c.status, c.seconds) {
      var e := RequestSeries(c.verb, c.route, c.status, c.seconds, place);
      assert [e][..0] == [];
      assert SeriesNumber([e], key, m) == EntryNumber(e, key, m);
      NumberOfOne(c, m, place);
    }
    SaidOfOne(0.0, m, place);
  }

  lemma SaidTogether(a: seq<real>, b: seq<real>, m: Measure, place: Place)
    requires |b| <= 1
    ensures Said(a + b, m, place) == Said(a, m, place) + Said(b, m, place)
  {
    if b == [] {
      assert a + b == a;
    } else {
      assert (a + b)[..|a|] == a && (a + b)[|a|] == b[0];
      assert b == [b[0]];
      SaidOfOne(b[0], m, place);
    }
  }

  lemma {:induction false} AnswersSay(calls: seq<Call>, place: Place, key: string, m: Measure)
    ensures Answers(calls, place, Of(key, m)) == Said(Durations(calls, key), m, place)
  {
    if calls == [] {
      SaidOfOne(0.0, m, place);
    } else {
      var front, c := calls[..|calls| - 1], calls[|calls| - 1];
      AnswersSay(front, place, key, m);
      DeltaSays(c, place, key, m);
      OneMoreDuration(calls, key);
      SaidTogether(Durations(front, key), Durations([c], key), m, place);
    }
  }

  lemma OneMoreDuration(calls: seq<Call>, key: string)
    requires calls != []
    ensures var c := calls[|calls| - 1];
            Durations(calls, key) == Durations(calls[..|calls| - 1], key) + Durations([c], key)
            && |Durations([c], key)| <= 1
  {
    assert [calls[|calls| - 1]][..0] == [];
  }

  /** What a collector says of a series: how many requests there were, what their durations add up to,
      and how many of them fall between which bounds. */
  lemma CollectedSeries(calls: seq<Call>, place: Place, key: string, i: nat)
    ensures var s, ds := Collected(calls, place), Durations(calls, key);
            && Ask(s, Of(key, Requests)) == |ds| as real && Ask(s, Of(key, Count)) == |ds| as real
            && Ask(s, Of(key, Sum)) == Total(ds)
            && Ask(s, Of(key, Bucket(i))) == HowMany(ds, i, place) as real
  {
    CollectedSays(calls, place, key, Requests);
    CollectedSays(calls, place, key, Count);
    CollectedSays(calls, place, key, Sum);
    CollectedSays(calls, place, key, Bucket(i));
  }

  lemma CollectedSays(calls: seq<Call>, place: Place, key: string, m: Measure)
    ensures Ask(Collected(calls, place), Of(key, m)) == Said(Durations(calls, key), m, place)
  {
    CollectedAnswers(calls, place, Of(key, m));
    AnswersSay(calls, place, key, m);
  }

  function Tally(calls: seq<Call>, c: Call): nat {
    multiset(calls)[c]
  }

  lemma {:induction false} AnswersTally(calls: seq<Call>, place: Place)
    ensures Answers(calls, place, Created) == Tally(calls, CountCreated) as real
    ensures Answers(calls, place, Redirects) == Tally(calls, CountRedirect) as real
    ensures Answers(calls, place, Misses) == Tally(calls, CountMiss) as real
  {
    if calls != [] {
      var front, c := calls[..|calls| - 1], calls[|calls| - 1];
      AnswersTally(front, place);
      TallyMore(calls, CountCreated);
      TallyMore(calls, CountRedirect);
      TallyMore(calls, CountMiss);
    }
  }

  lemma TallyMore(calls: seq<Call>, c: Call)
    requires calls != []
    ensures Tally(calls, c) == Tally(calls[..|calls| - 1], c) + if calls[|calls| - 1] == c then 1 else 0
  {
    assert calls == calls[..|calls| - 1] + [calls[|calls| - 1]];
  }

  lemma {:induction false} AnswersIncrements(calls: seq<Call>, place: Place, name: string)
    requires WellFormed(name)
    ensures Answers(calls, place, Counter(name)) == Increments(calls, name) as real
  {
    if calls != [] {
      AnswersIncrements(calls[..|calls| - 1], place, name);
      DeltaIncrements(calls[|calls| - 1], place, name);
    }
  }

  lemma DeltaIncrements(c: Call, place: Place, name: string)
    requires WellFormed(name)
    ensures Ask(Delta(c, place), Counter(name))
         == if c.Increment? && c.name == name && c.value > 0 then c.value as real else 0.0
  {
    CounterNames(name);
  }

  /** And of the rest: created links, redirects and misses are the numbers of those calls, and a
      counter is the sum of its increments, for well-formed names only. */
  lemma CollectedCounts(calls: seq<Call>, place: Place, name: string)
    ensures var s := Collected(calls, place);
            && s.created == multiset(calls)[CountCreated] && s.redirects == multiset(calls)[CountRedirect]
            && s.misses == multiset(calls)[CountMiss]
            && (name in s.counters ==> WellFormed(name))
            && (WellFormed(name) ==> CounterAt(s.counters, name) == Increments(calls, name))
  {
    CollectedAnswers(calls, place, Created);
    CollectedAnswers(calls, place, Redirects);
    CollectedAnswers(calls, place, Misses);
    AnswersTally(calls, place);
    CounterNames(name);
    if WellFormed(name) {
      CollectedAnswers(calls, place, Counter(name));
      AnswersIncrements(calls, place, name);
      assert Clean(Collected(calls, place).counters) == Collected(calls, place).counters;
    }
  }

  /** The primary says what one worker would that had taken all the calls. */
  lemma MergedSays(batches: seq<seq<Call>>, q: Question)
    ensures Ask(Merged(batches), q) == Ask(Collected(Flat(batches), InWorker), q)
  {
    MergedAnswers(batches, q);
    CollectedAnswers(Flat(batches), InWorker, q);
  }

  predicate Plain(c: Call) {
    c.Request? ==> NulFree(c.verb) && NulFree(c.route)
  }

  lemma {:induction false} AddSeriesProper(target: seq<Series>, source: seq<Series>)
    requires Proper(target) && Proper(source)
    ensures Proper(AddSeries(target, source))
  {
    if source != [] {
      AddSeriesProper(target, source[..|source| - 1]);
    }
  }

  lemma {:induction false} CollectedProper(calls: seq<Call>, place: Place)
    requires forall c :: c in calls ==> Plain(c)
    ensures Proper(Collected(calls, place).series)
  {
    if calls != [] {
      var front, c := calls[..|calls| - 1], calls[|calls| - 1];
      assert forall d :: d in front ==> d in calls;
      assert c in calls;
      CollectedProper(front, place);
      assert Proper(Delta(c, place).series);
      AddSeriesProper(Collected(front, place).series, Delta(c, place).series);
    }
  }

  lemma DeltaBounded(c: Call, place: Place)
    ensures AllBounded(Delta(c, place).series)
  {
    if c.Request? && Accepted(c.verb, c.route, c.status, c.seconds) {
      var j := BucketFrom(c.seconds, 0);
      OneHotExactlyWhenPositive(c.seconds);
      SumOfOne(SeenBuckets(c.seconds), j);
      if ZeroCall(c) {
        SumOfOne(OneHot(c.seconds), 0);
      }
    }
  }

  lemma {:induction false} MergedProper(batches: seq<seq<Call>>)
    requires forall c :: c in Flat(batches) ==> Plain(c)
    ensures Proper(Merged(batches).series)
  {
    if batches != [] {
      var front, last := batches[..|batches| - 1], batches[|batches| - 1];
      MergedProper(front);
      CollectedProper(last, InWorker);
      AddSeriesProper(Merged(front).series, Collected(last, InWorker).series);
    }
  }

  /** Whatever the calls, no series of a collector counts more observations in its buckets than in
      all, so no rendered bucket exceeds +Inf. */
  lemma {:induction false} CollectedBounded(calls: seq<Call>, place: Place)
    ensures AllBounded(Collected(calls, place).series)
  {
    if calls != [] {
      var front, c := calls[..|calls| - 1], calls[|calls| - 1];
      CollectedBounded(front, place);
      DeltaBounded(c, place);
      AddSeriesBounded(Collected(front, place).series, Delta(c, place).series);
    }
  }

  /** And neither does any series of the primary, however the batches come. */
  lemma {:induction false} MergedBounded(batches: seq<seq<Call>>)
    ensures AllBounded(Merged(batches).series)
  {
    if batches != [] {
      var front, last := batches[..|batches| - 1], batches[|batches| - 1];
      MergedBounded(front);
      CollectedBounded(last, InWorker);
      AddSeriesBounded(Merged(front).series, Collected(last, InWorker).series);
    }
  }

  /** With labels free of NUL and no request of zero duration, the merged snapshot is the one of a
      single collector but for the order of its series. */
  lemma MergedIsOneCollector(calls: seq<Call>, batches: seq<seq<Call>>)
    requires multiset(calls) == multiset(Flat(batches))
    requires forall c :: c in calls ==> Plain(c) && !ZeroCall(c)
    ensures var m, s := Merged(batches), Collected(calls, InProcess);
            && m.created == s.created && m.redirects == s.redirects && m.misses == s.misses && m.counters == s.counters
            && UniqueKeys(m.series) && AllBounded(m.series) && forall e :: e in m.series <==> e in s.series
  {
    forall c | c in Flat(batches)
      ensures Plain(c)
    {
      assert c in multiset(Flat(batches));
      assert c in multiset(calls);
    }
    MergedProper(batches);
    MergedBounded(batches);
    CollectedProper(calls, InProcess);
    MergedAgreesExactlyWithoutZeroes(calls, batches);
    AgreeingIsEqual(Merged(batches), Collected(calls, InProcess));
  }
}
