/** Metrics snapshots and their merge (src/metrics.ts). Durations are reals. */
module Snapshots {
  import opened Numbers

  const BUCKETS: seq<real> := [0.005, 0.01, 0.025, 0.05, 0.1, 0.25, 0.5, 1.0, 2.5, 5.0, 10.0]

  type Buckets = b: seq<nat> | |b| == 11 witness [0, 0, 0, 0, 0, 0, 0, 0, 0, 0, 0]

  /** Observations per bucket, their sum and their number. */
  datatype Duration = Duration(buckets: Buckets, sum: real, count: nat)

  datatype Series = Series(verb: string, route: string, status: nat, requests: nat, duration: Duration)

  datatype Snapshot = Snapshot(
    created: nat,
    redirects: nat,
    misses: nat,
    series: seq<Series>,
    counters: map<string, nat>)

  const EmptySnapshot := Snapshot(0, 0, 0, [], map[])

  function NoBuckets(): (b: Buckets)
    ensures forall i :: 0 <= i < 11 ==> b[i] == 0
  {
    seq(11, i => 0)
  }

  function NoDuration(): Duration {
    Duration(NoBuckets(), 0.0, 0)
  }

  function PlusBuckets(a: Buckets, b: Buckets): (c: Buckets)
    ensures forall i :: 0 <= i < 11 ==> c[i] == a[i] + b[i]
  {
    seq(11, i requires 0 <= i < 11 => a[i] + b[i])
  }

  function PlusDuration(a: Duration, b: Duration): Duration {
    Duration(PlusBuckets(a.buckets, b.buckets), a.sum + b.sum, a.count + b.count)
  }

  // ---- series keys ----

  const NUL: char := 0 as char

  /** method NUL route NUL status */
  function SeriesKey(verb: string, route: string, status: nat): string {
    verb + [NUL] + route + [NUL] + Decimal(status)
  }

  function Key(e: Series): string {
    SeriesKey(e.verb, e.route, e.status)
  }

  predicate NulFree(s: string) {
    forall i :: 0 <= i < |s| ==> s[i] != NUL
  }

  lemma {:induction false} DecimalNulFree(n: nat)
    ensures NulFree(Decimal(n)) && |Decimal(n)| >= 1
  {
    if n >= 10 {
      DecimalNulFree(n / 10);
    }
  }

  lemma {:induction false} DecimalInjective(m: nat, n: nat)
    requires Decimal(m) == Decimal(n)
    ensures m == n
  {
    DecimalNulFree(m / 10);
    DecimalNulFree(n / 10);
    var s := Decimal(m);
    if m >= 10 && n >= 10 {
      assert s[..|s| - 1] == Decimal(m / 10) && s[..|s| - 1] == Decimal(n / 10);
      DecimalInjective(m / 10, n / 10);
      assert s[|s| - 1] == DecimalDigit(m % 10) && s[|s| - 1] == DecimalDigit(n % 10);
    } else if m < 10 && n < 10 {
      assert s[0] == DecimalDigit(m) && s[0] == DecimalDigit(n);
    }
  }

  lemma LastNul(x: string, a: string, y: string, b: string)
    requires NulFree(a) && NulFree(b) && x + [NUL] + a == y + [NUL] + b
    ensures x == y && a == b
  {
    var s := x + [NUL] + a;
    assert s[|x|] == NUL && s[|y|] == NUL;
    assert forall k :: |x| < k < |s| ==> s[k] == a[k - |x| - 1];
    assert forall k :: |y| < k < |s| ==> s[k] == b[k - |y| - 1];
    assert |x| == |y|;
    assert s[..|x|] == x && s[..|x|] == y;
    assert s[|x| + 1..] == a && s[|x| + 1..] == b;
  }

  function Labels(verb: string, route: string): string {
    verb + [NUL] + route
  }

  /** Keys are equal exactly when the statuses are, and the labels before the last NUL read the same. */
  lemma SeriesKeysEqualExactly(v: string, r: string, s: nat, v': string, r': string, s': nat)
    ensures SeriesKey(v, r, s) == SeriesKey(v', r', s') <==> Labels(v, r) == Labels(v', r') && s == s'
  {
    DecimalNulFree(s);
    DecimalNulFree(s');
    if SeriesKey(v, r, s) == SeriesKey(v', r', s') {
      LastNul(Labels(v, r), Decimal(s), Labels(v', r'), Decimal(s'));
      DecimalInjective(s, s');
    }
  }

  /** A text can be read as labels at each of its NULs, and at no other place. */
  lemma LabelsAt(text: string, p: nat)
    requires p < |text| && text[p] == NUL
    ensures Labels(text[..p], text[p + 1..]) == text
  {
  }

  lemma LabelsSplit(v: string, r: string, v': string, r': string)
    requires Labels(v, r) == Labels(v', r')
    ensures |v'| < |Labels(v, r)| && Labels(v, r)[|v'|] == NUL
    ensures |v| == |v'| ==> v == v' && r == r'
  {
    var text := Labels(v, r);
    assert text[|v'|] == NUL;
    if |v| == |v'| {
      assert text[..|v|] == v && text[..|v|] == v';
      assert text[|v| + 1..] == r && text[|v| + 1..] == r';
    }
  }

  /** No other series has the key. */
  ghost predicate KeyIsItsOwn(v: string, r: string, s: nat) {
    forall v', r', s' :: SeriesKey(v', r', s') == SeriesKey(v, r, s) ==> v' == v && r' == r && s' == s
  }

  /** A series' key is its own exactly when neither of its labels holds a NUL. */
  lemma SeriesKeyIsItsOwnExactlyWhenNulFree(v: string, r: string, s: nat)
    ensures KeyIsItsOwn(v, r, s) <==> NulFree(v) && NulFree(r)
  {
    var text := Labels(v, r);
    if NulFree(v) && NulFree(r) {
      assert forall p :: 0 <= p < |text| && p != |v| ==> text[p] == if p < |v| then v[p] else r[p - |v| - 1];
      forall v', r', s' | SeriesKey(v', r', s') == SeriesKey(v, r, s)
        ensures v' == v && r' == r && s' == s
      {
        SeriesKeysEqualExactly(v, r, s, v', r', s');
        LabelsSplit(v, r, v', r');
      }
    } else {
      var p := if !NulFree(v) then NulIn(v) else |v| + 1 + NulIn(r);
      assert text[p] == NUL && p != |v|;
      LabelsAt(text, p);
      SeriesKeysEqualExactly(v, r, s, text[..p], text[p + 1..], s);
      assert |text[..p]| != |v|;
    }
  }

  function NulIn(s: string): (p: nat)
    requires !NulFree(s)
    ensures p < |s| && s[p] == NUL
  {
    if s[0] == NUL then 0
    else
      assert exists i :: 0 <= i < |s| && s[i] == NUL && s[1..][i - 1] == NUL;
      NulIn(s[1..]) + 1
  }

  /** Among the labels that requests are accepted with, which are not empty, a key is its own
      exactly when the labels hold no further NUL but at their very ends. */
  lemma AcceptedKeyIsItsOwnExactly(v: string, r: string, s: nat)
    requires v != "" && r != ""
    ensures (forall v', r', s' :: v' != "" && r' != "" && SeriesKey(v', r', s') == SeriesKey(v, r, s)
                                  ==> v' == v && r' == r && s' == s)
       <==> (forall p :: 0 < p < |Labels(v, r)| - 1 && p != |v| ==> Labels(v, r)[p] != NUL)
  {
    var text := Labels(v, r);
    if forall p :: 0 < p < |text| - 1 && p != |v| ==> text[p] != NUL {
      forall v', r', s' | v' != "" && r' != "" && SeriesKey(v', r', s') == SeriesKey(v, r, s)
        ensures v' == v && r' == r && s' == s
      {
        SeriesKeysEqualExactly(v, r, s, v', r', s');
        LabelsSplit(v, r, v', r');
      }
    } else {
      var p :| 0 < p < |text| - 1 && p != |v| && text[p] == NUL;
      LabelsAt(text, p);
      SeriesKeysEqualExactly(v, r, s, text[..p], text[p + 1..], s);
      assert |text[..p]| != |v|;
    }
  }

  /** Labels without NUL are told apart by their key. */
  lemma SeriesKeyInjective(v: string, r: string, s: nat, v': string, r': string, s': nat)
    requires NulFree(v) && NulFree(r)
    requires SeriesKey(v, r, s) == SeriesKey(v', r', s')
    ensures v == v' && r == r' && s == s'
  {
    SeriesKeyIsItsOwnExactlyWhenNulFree(v, r, s);
  }

  /** With a NUL in a label two different series share a key. */
  lemma NulLabelsCollide(v: string, w: string, r: string, status: nat)
    ensures SeriesKey(v + [NUL] + w, r, status) == SeriesKey(v, w + [NUL] + r, status)
    ensures v + [NUL] + w != v && w + [NUL] + r != r
  {
    assert v + [NUL] + w + [NUL] + r == v + [NUL] + (w + [NUL] + r);
    assert |v + [NUL] + w| > |v| && |w + [NUL] + r| > |r|;
  }

  // ---- durations ----

  /** The first bucket whose bound is not below the duration; 11 when there is none. */
  function BucketFrom(seconds: real, i: nat): (j: nat)
    requires i <= 11
    ensures i <= j <= 11 && (j < 11 ==> seconds <= BUCKETS[j])
    ensures forall k :: i <= k < j ==> seconds > BUCKETS[k]
    decreases 11 - i
  {
    if i == 11 then 11 else if seconds <= BUCKETS[i] then i else BucketFrom(seconds, i + 1)
  }

  /** The bounds, in seconds. */
  lemma BucketByBounds(seconds: real)
    ensures BucketFrom(seconds, 0) ==
              if seconds <= 0.005 then 0 else if seconds <= 0.01 then 1 else if seconds <= 0.025 then 2
              else if seconds <= 0.05 then 3 else if seconds <= 0.1 then 4 else if seconds <= 0.25 then 5
              else if seconds <= 0.5 then 6 else if seconds <= 1.0 then 7 else if seconds <= 2.5 then 8
              else if seconds <= 5.0 then 9 else if seconds <= 10.0 then 10 else 11
  {
    BucketIsFirst(seconds, BucketFrom(seconds, 0));
  }

  lemma BucketIsFirst(seconds: real, j: nat)
    requires j == BucketFrom(seconds, 0)
    ensures j > 0 ==> seconds > BUCKETS[j - 1]
    ensures j < 11 ==> seconds <= BUCKETS[j]
  {
  }

  /** The buckets of a single observation. */
  function SeenBuckets(seconds: real): (b: Buckets)
    ensures forall i :: 0 <= i < 11 ==> b[i] == if i == BucketFrom(seconds, 0) then 1 else 0
  {
    seq(11, i requires 0 <= i < 11 => if i == BucketFrom(seconds, 0) then 1 else 0)
  }

  function Observation(buckets: Buckets, seconds: real): Duration {
    Duration(buckets, seconds, 1)
  }

  /** Observing in place is adding a single observation; a negative duration is ignored. */
  method ObserveDuration(d: Duration, seconds: real) returns (r: Duration)
    ensures r == if seconds < 0.0 then d else PlusDuration(d, Observation(SeenBuckets(seconds), seconds))
  {
    if seconds < 0.0 {
      return d;
    }
    r := d.(sum := d.sum + seconds, count := d.count + 1);
    var index := 0;
    while index < 11
      invariant 0 <= index <= 11 && BucketFrom(seconds, 0) == BucketFrom(seconds, index)
    {
      if seconds <= BUCKETS[index] {
        r := r.(buckets := d.buckets[index := d.buckets[index] + 1]);
        assert r.buckets == PlusBuckets(d.buckets, SeenBuckets(seconds));
        return;
      }
      index := index + 1;
    }
    assert r.buckets == PlusBuckets(d.buckets, SeenBuckets(seconds));
  }

  method AddRequestDuration(target: Duration, source: Duration) returns (r: Duration)
    ensures r == PlusDuration(target, source)
  {
    var buckets: Buckets := target.buckets;
    for index := 0 to 11
      invariant forall i :: 0 <= i < 11 ==> buckets[i] == target.buckets[i] + if i < index then source.buckets[i] else 0
    {
      buckets := buckets[index := buckets[index] + source.buckets[index]];
    }
    assert buckets == PlusBuckets(target.buckets, source.buckets);
    r := Duration(buckets, target.sum + source.sum, target.count + source.count);
  }

  /** The buckets a worker sends for one observation: above the bound before, and not above its
      own; the bound before the first is 0. */
  function OneHot(seconds: real): Buckets {
    seq(11, i requires 0 <= i < 11 =>
      if seconds <= BUCKETS[i] && seconds > (if i == 0 then 0.0 else BUCKETS[i - 1]) then 1 else 0)
  }

  lemma BoundsGrow(i: nat, j: nat)
    requires i <= j < 11
    ensures BUCKETS[i] <= BUCKETS[j]
  {
  }

  /** A worker's buckets are those of the in-process collector for every duration but exactly 0,
      which the worker puts in no bucket and the collector in the first. */
  lemma OneHotExactlyWhenPositive(seconds: real)
    requires seconds >= 0.0
    ensures OneHot(seconds) == SeenBuckets(seconds) <==> seconds != 0.0
    ensures seconds == 0.0 ==> OneHot(seconds)[0] == 0 && SeenBuckets(seconds)[0] == 1
  {
    var hot, seen, j := OneHot(seconds), SeenBuckets(seconds), BucketFrom(seconds, 0);
    if seconds == 0.0 {
      assert hot[0] == 0 && seen[0] == 1;
    } else {
      forall i | 0 <= i < 11
        ensures hot[i] == seen[i]
      {
        if i < j {
          assert seconds > BUCKETS[i];
        } else if i > j {
          BoundsGrow(j, i - 1);
        }
      }
    }
  }

  // ---- merging series ----

  predicate UniqueKeys(s: seq<Series>) {
    forall i, j :: 0 <= i < j < |s| ==> Key(s[i]) != Key(s[j])
  }

  /** The position of a key, or |s|. */
  function Find(s: seq<Series>, key: string): (i: nat)
    ensures i <= |s| && (i < |s| ==> Key(s[i]) == key)
    ensures forall k :: 0 <= k < i ==> Key(s[k]) != key
  {
    if s == [] then 0 else if Key(s[0]) == key then 0 else Find(s[1..], key) + 1
  }

  function MergedEntry(a: Series, b: Series): (r: Series)
    ensures Key(r) == Key(a)
  {
    a.(requests := a.requests + b.requests, duration := PlusDuration(a.duration, b.duration))
  }

  function NewSeries(e: Series): (r: Series)
    ensures Key(r) == Key(e)
  {
    e.(requests := 0, duration := NoDuration())
  }

  /** Adds one entry: into the series of its key, or into a new empty one. */
  function AddEntry(target: seq<Series>, e: Series): seq<Series> {
    var i := Find(target, Key(e));
    if i < |target| then target[i := MergedEntry(target[i], e)]
    else target + [MergedEntry(NewSeries(e), e)]
  }

  function AddSeries(target: seq<Series>, source: seq<Series>): seq<Series> {
    if source == [] then target
    else AddEntry(AddSeries(target, source[..|source| - 1]), source[|source| - 1])
  }

  lemma AddEntryUnique(target: seq<Series>, e: Series)
    requires UniqueKeys(target)
    ensures UniqueKeys(AddEntry(target, e))
  {
    var i, r := Find(target, Key(e)), AddEntry(target, e);
    forall k | 0 <= k < |target|
      ensures Key(r[k]) == Key(target[k])
    {
    }
  }

  /** Merging never repeats a key. */
  lemma {:induction false} AddSeriesUnique(target: seq<Series>, source: seq<Series>)
    requires UniqueKeys(target)
    ensures UniqueKeys(AddSeries(target, source))
  {
    if source != [] {
      AddSeriesUnique(target, source[..|source| - 1]);
      AddEntryUnique(AddSeries(target, source[..|source| - 1]), source[|source| - 1]);
    }
  }

  /** A map from every key to the position of its series. */
  predicate Located(positions: map<string, nat>, s: seq<Series>) {
    && (forall key :: key in positions ==> positions[key] < |s| && Key(s[positions[key]]) == key)
    && (forall k :: 0 <= k < |s| ==> Key(s[k]) in positions)
  }

  method Locate(s: seq<Series>) returns (positions: map<string, nat>)
    ensures Located(positions, s)
  {
    positions := map[];
    for i := 0 to |s|
      invariant forall key :: key in positions ==> positions[key] < i && Key(s[positions[key]]) == key
      invariant forall k :: 0 <= k < i ==> Key(s[k]) in positions
    {
      positions := positions[Key(s[i]) := i];
    }
  }

  lemma LocatedFinds(positions: map<string, nat>, s: seq<Series>, key: string)
    requires Located(positions, s) && UniqueKeys(s)
    ensures Find(s, key) == if key in positions then positions[key] else |s|
  {
  }

  lemma LocatedKept(positions: map<string, nat>, s: seq<Series>, p: nat, f: Series)
    requires Located(positions, s) && UniqueKeys(s) && p < |s| && Key(f) == Key(s[p])
    ensures Located(positions, s[p := f]) && UniqueKeys(s[p := f])
  {
    var t := s[p := f];
    assert forall k :: 0 <= k < |s| ==> Key(t[k]) == Key(s[k]);
  }

  /** Finds the series of a key, or appends an empty one; `e` is what the caller will add there. */
  method OpenSeries(target: seq<Series>, positions: map<string, nat>, verb: string, route: string, status: nat,
                    ghost e: Series)
    returns (r: seq<Series>, grown: map<string, nat>, p: nat)
    requires UniqueKeys(target) && Located(positions, target)
    requires e.verb == verb && e.route == route && e.status == status
    ensures UniqueKeys(r) && Located(grown, r) && p < |r| && Key(r[p]) == Key(e)
    ensures AddEntry(target, e) == r[p := MergedEntry(r[p], e)]
  {
    var key := SeriesKey(verb, route, status);
    LocatedFinds(positions, target, key);
    r, grown := target, positions;
    if key !in grown {
      grown := grown[key := |r|];
      r := r + [Series(verb, route, status, 0, NoDuration())];
      assert r[|target|] == NewSeries(e);
    }
    p := grown[key];
  }

  method MergeInto(target: Series, source: Series) returns (r: Series)
    ensures r == MergedEntry(target, source)
  {
    var duration := AddRequestDuration(target.duration, source.duration);
    r := target.(requests := target.requests + source.requests, duration := duration);
  }

  method MergeOne(target: seq<Series>, positions: map<string, nat>, e: Series)
    returns (r: seq<Series>, grown: map<string, nat>)
    requires UniqueKeys(target) && Located(positions, target)
    ensures UniqueKeys(r) && Located(grown, r) && r == AddEntry(target, e)
  {
    var p;
    r, grown, p := OpenSeries(target, positions, e.verb, e.route, e.status, e);
    var merged := MergeInto(r[p], e);
    LocatedKept(grown, r, p, merged);
    r := r[p := merged];
  }

  /** The merge loop, which keeps the position of every key of the target in a map. */
  method MergeSeries(target: seq<Series>, source: seq<Series>) returns (r: seq<Series>)
    requires UniqueKeys(target)
    ensures r == AddSeries(target, source)
  {
    r := target;
    var positions := Locate(r);
    for i := 0 to |source|
      invariant r == AddSeries(target, source[..i]) && UniqueKeys(r) && Located(positions, r)
    {
      assert source[..i + 1][..i] == source[..i];
      r, positions := MergeOne(r, positions, source[i]);
    }
    assert source[..|source|] == source;
  }

  // ---- counters ----

  predicate IsCounterName(name: string) {
    && 1 <= |name| <= 64 && 'a' <= name[0] <= 'z'
    && forall i :: 0 <= i < |name| ==> 'a' <= name[i] <= 'z' || '0' <= name[i] <= '9' || name[i] == '_'
  }

  predicate Counts(name: string, value: int) {
    IsCounterName(name) && value > 0
  }

  function CounterAt(counters: map<string, nat>, name: string): nat {
    if name in counters then counters[name] else 0
  }

  function AddCounter(counters: map<string, nat>, name: string, value: int): map<string, nat> {
    if Counts(name, value) then counters[name := CounterAt(counters, name) + value] else counters
  }

  predicate CleanCounters(counters: map<string, nat>) {
    forall name :: name in counters ==> Counts(name, counters[name])
  }

  function Clean(counters: map<string, nat>): (r: map<string, nat>)
    ensures CleanCounters(r)
  {
    map name | name in counters && Counts(name, counters[name]) :: counters[name]
  }

  function PlusCounters(target: map<string, nat>, source: map<string, nat>): map<string, nat> {
    map name | name in target.Keys + Clean(source).Keys :: CounterAt(target, name) + CounterAt(Clean(source), name)
  }

  /** The sums so far, while the counters in `left` are still to be added. */
  predicate Summed(r: map<string, nat>, target: map<string, nat>, clean: map<string, nat>, left: set<string>) {
    && r.Keys == target.Keys + (clean.Keys - left)
    && forall name :: name in r
         ==> r[name] == CounterAt(target, name) + if name in left then 0 else CounterAt(clean, name)
  }

  lemma SumOne(r: map<string, nat>, target: map<string, nat>, source: map<string, nat>, left: set<string>, name: string)
    requires name in left && left <= source.Keys && Summed(r, target, Clean(source), left)
    ensures Summed(AddCounter(r, name, source[name]), target, Clean(source), left - {name})
  {
    assert Counts(name, source[name]) <==> name in Clean(source);
  }

  method AddCounters(target: map<string, nat>, source: map<string, nat>) returns (r: map<string, nat>)
    ensures r == PlusCounters(target, source)
  {
    r := target;
    var left := source.Keys;
    while left != {}
      invariant left <= source.Keys && Summed(r, target, Clean(source), left)
      decreases left
    {
      var name :| name in left;
      SumOne(r, target, source, left, name);
      r := AddCounter(r, name, source[name]);
      left := left - {name};
    }
  }

  // ---- whole snapshots ----

  /** What every snapshot built by these functions satisfies. */
  predicate Valid(s: Snapshot) {
    UniqueKeys(s.series) && CleanCounters(s.counters)
  }

  function AddSnapshot(target: Snapshot, source: Snapshot): (r: Snapshot)
    requires Valid(target)
    ensures Valid(r)
  {
    AddSeriesUnique(target.series, source.series);
    Snapshot(target.created + source.created, target.redirects + source.redirects, target.misses + source.misses,
             AddSeries(target.series, source.series), PlusCounters(target.counters, source.counters))
  }

  method AddMetricsSnapshot(target: Snapshot, source: Snapshot) returns (r: Snapshot)
    requires Valid(target)
    ensures r == AddSnapshot(target, source)
  {
    var counters := AddCounters(target.counters, source.counters);
    var series := MergeSeries(target.series, source.series);
    r := Snapshot(target.created + source.created, target.redirects + source.redirects,
                  target.misses + source.misses, series, counters);
  }

  lemma AddNothing(s: Snapshot)
    requires Valid(s)
    ensures AddSnapshot(s, EmptySnapshot) == s
  {
    assert PlusCounters(s.counters, map[]) == s.counters;
  }

  lemma {:induction false} AddSeriesToNothing(s: seq<Series>)
    requires UniqueKeys(s)
    ensures AddSeries([], s) == s
  {
    if s != [] {
      AddSeriesToNothing(s[..|s| - 1]);
      AddLastSeries(s);
    }
  }

  lemma AddLastSeries(s: seq<Series>)
    requires s != [] && UniqueKeys(s)
    ensures AddEntry(s[..|s| - 1], s[|s| - 1]) == s
  {
    var front, last := s[..|s| - 1], s[|s| - 1];
    FindIs(front, Key(last), |front|);
    NewSeriesIsZero(last);
  }

  lemma AddCountersToNothing(counters: map<string, nat>)
    requires CleanCounters(counters)
    ensures PlusCounters(map[], counters) == counters
  {
    assert Clean(counters) == counters;
  }

  /** Putting a batch that could not be sent back into the empty pending snapshot restores it. */
  lemma AddToNothing(s: Snapshot)
    requires Valid(s)
    ensures AddSnapshot(EmptySnapshot, s) == s
  {
    AddSeriesToNothing(s.series);
    AddCountersToNothing(s.counters);
  }

  // ---- what a snapshot says ----

  /** A number of a series. */
  datatype Measure = Requests | Sum | Count | Bucket(index: nat)

  /** A number of a snapshot. */
  datatype Question = Created | Redirects | Misses | Of(key: string, measure: Measure) | Counter(name: string)

  function Number(e: Series, m: Measure): real {
    match m
    case Requests => e.requests as real
    case Sum => e.duration.sum
    case Count => e.duration.count as real
    case Bucket(i) => if i < 11 then e.duration.buckets[i] as real else 0.0
  }

  function EntryNumber(e: Series, key: string, m: Measure): real {
    if Key(e) == key then Number(e, m) else 0.0
  }

  /** All entries of a key together. */
  function SeriesNumber(s: seq<Series>, key: string, m: Measure): real {
    if s == [] then 0.0 else SeriesNumber(s[..|s| - 1], key, m) + EntryNumber(s[|s| - 1], key, m)
  }

  function Ask(s: Snapshot, q: Question): real {
    match q
    case Created => s.created as real
    case Redirects => s.redirects as real
    case Misses => s.misses as real
    case Of(key, m) => SeriesNumber(s.series, key, m)
    case Counter(name) => CounterAt(Clean(s.counters), name) as real
  }

  lemma NumberMerges(a: Series, b: Series, key: string, m: Measure)
    requires Key(a) == Key(b)
    ensures EntryNumber(MergedEntry(a, b), key, m) == EntryNumber(a, key, m) + EntryNumber(b, key, m)
  {
  }

  lemma NewSeriesIsZero(e: Series)
    ensures MergedEntry(NewSeries(e), e) == e
  {
    assert PlusBuckets(NoBuckets(), e.duration.buckets) == e.duration.buckets;
  }

  lemma {:induction false} SeriesNumberUpdate(s: seq<Series>, i: nat, e: Series, key: string, m: Measure)
    requires i < |s| && Key(e) == Key(s[i])
    ensures SeriesNumber(s[i := MergedEntry(s[i], e)], key, m) == SeriesNumber(s, key, m) + EntryNumber(e, key, m)
  {
    var u, front := s[i := MergedEntry(s[i], e)], s[..|s| - 1];
    if i == |s| - 1 {
      assert u[..|u| - 1] == front;
      NumberMerges(s[i], e, key, m);
    } else {
      assert u[..|u| - 1] == front[i := MergedEntry(front[i], e)];
      SeriesNumberUpdate(front, i, e, key, m);
    }
  }

  lemma SeriesNumberAdd(target: seq<Series>, e: Series, key: string, m: Measure)
    ensures SeriesNumber(AddEntry(target, e), key, m) == SeriesNumber(target, key, m) + EntryNumber(e, key, m)
  {
    var i := Find(target, Key(e));
    if i < |target| {
      SeriesNumberUpdate(target, i, e, key, m);
    } else {
      NewSeriesIsZero(e);
      assert (target + [e])[..|target|] == target;
    }
  }

  lemma {:induction false} SeriesNumberMerge(target: seq<Series>, source: seq<Series>, key: string, m: Measure)
    ensures SeriesNumber(AddSeries(target, source), key, m)
         == SeriesNumber(target, key, m) + SeriesNumber(source, key, m)
  {
    if source != [] {
      var front, last := source[..|source| - 1], source[|source| - 1];
      SeriesNumberMerge(target, front, key, m);
      SeriesNumberAdd(AddSeries(target, front), last, key, m);
    }
  }

  lemma PlusStaysClean(target: map<string, nat>, source: map<string, nat>)
    requires CleanCounters(target)
    ensures Clean(target) == target && Clean(PlusCounters(target, source)) == PlusCounters(target, source)
  {
    var sum := PlusCounters(target, source);
    forall name | name in sum
      ensures Counts(name, sum[name])
    {
      assert name in target || name in Clean(source);
    }
  }

  /** Merging snapshots adds every number of the one to the other. */
  lemma MergeAdds(target: Snapshot, source: Snapshot, q: Question)
    requires Valid(target)
    ensures Ask(AddSnapshot(target, source), q) == Ask(target, q) + Ask(source, q)
  {
    match q
    case Of(key, m) => SeriesNumberMerge(target.series, source.series, key, m);
    case Counter(name) => PlusStaysClean(target.counters, source.counters);
    case _ =>
  }

  lemma FindIs(s: seq<Series>, key: string, i: nat)
    requires i <= |s| && (i < |s| ==> Key(s[i]) == key) && forall k :: 0 <= k < i ==> Key(s[k]) != key
    ensures Find(s, key) == i
  {
  }

  function NumberAt(s: seq<Series>, key: string, m: Measure): real {
    var i := Find(s, key);
    if i < |s| then Number(s[i], m) else 0.0
  }

  lemma NumberAtSnoc(s: seq<Series>, key: string, m: Measure)
    requires s != [] && UniqueKeys(s)
    ensures NumberAt(s, key, m) == NumberAt(s[..|s| - 1], key, m) + EntryNumber(s[|s| - 1], key, m)
  {
    var front, last := s[..|s| - 1], s[|s| - 1];
    var j := Find(front, key);
    if Key(last) == key {
      FindIs(s, key, |front|);
      FindIs(front, key, |front|);
    } else {
      FindIs(s, key, if j < |front| then j else |s|);
    }
  }

  /** With unique keys the one entry of a key says it all. */
  lemma {:induction false} SeriesNumberFinds(s: seq<Series>, key: string, m: Measure)
    requires UniqueKeys(s)
    ensures SeriesNumber(s, key, m) == NumberAt(s, key, m)
  {
    if s != [] {
      SeriesNumberFinds(s[..|s| - 1], key, m);
      NumberAtSnoc(s, key, m);
    }
  }

  /** Labels without NUL, and no series without a request. */
  predicate Proper(s: seq<Series>) {
    forall i :: 0 <= i < |s| ==> NulFree(s[i].verb) && NulFree(s[i].route) && s[i].requests > 0
  }

  /** Two snapshots that give the same answer to every question. */
  ghost predicate Agree(s: Snapshot, t: Snapshot) {
    forall q :: Ask(s, q) == Ask(t, q)
  }

  lemma NumberCarries(s: Snapshot, t: Snapshot, i: nat, m: Measure)
    requires Valid(s) && Valid(t) && Agree(s, t) && i < |s.series|
    ensures Number(s.series[i], m) == NumberAt(t.series, Key(s.series[i]), m)
  {
    var key := Key(s.series[i]);
    assert Ask(s, Of(key, m)) == Ask(t, Of(key, m));
    SeriesNumberFinds(s.series, key, m);
    SeriesNumberFinds(t.series, key, m);
    FindIs(s.series, key, i);
  }

  lemma SameNumbers(e: Series, f: Series)
    requires e.verb == f.verb && e.route == f.route && e.status == f.status
    requires forall m :: Number(e, m) == Number(f, m)
    ensures e == f
  {
    assert Number(e, Requests) == Number(f, Requests) && Number(e, Sum) == Number(f, Sum)
        && Number(e, Count) == Number(f, Count);
    forall i | 0 <= i < 11
      ensures e.duration.buckets[i] == f.duration.buckets[i]
    {
      assert Number(e, Bucket(i)) == Number(f, Bucket(i));
    }
    assert e.duration.buckets == f.duration.buckets;
  }

  lemma EntryCarries(s: Snapshot, t: Snapshot, i: nat)
    requires Valid(s) && Valid(t) && Agree(s, t) && Proper(s.series) && Proper(t.series) && i < |s.series|
    ensures s.series[i] in t.series
  {
    var e := s.series[i];
    var j := Find(t.series, Key(e));
    NumberCarries(s, t, i, Requests);
    var f := t.series[j];
    SeriesKeyInjective(e.verb, e.route, e.status, f.verb, f.route, f.status);
    forall m
      ensures Number(e, m) == Number(f, m)
    {
      NumberCarries(s, t, i, m);
    }
    SameNumbers(e, f);
  }

  lemma SameCounters(a: map<string, nat>, b: map<string, nat>)
    requires CleanCounters(a) && CleanCounters(b) && forall name :: CounterAt(a, name) == CounterAt(b, name)
    ensures a == b
  {
    forall name
      ensures name in a <==> name in b
    {
      assert CounterAt(a, name) == CounterAt(b, name);
    }
    forall name | name in a
      ensures a[name] == b[name]
    {
      assert CounterAt(a, name) == CounterAt(b, name);
    }
  }

  /** Snapshots that agree are the same but for the order of their series. */
  lemma AgreeingIsEqual(s: Snapshot, t: Snapshot)
    requires Valid(s) && Valid(t) && Agree(s, t) && Proper(s.series) && Proper(t.series)
    ensures s.created == t.created && s.redirects == t.redirects && s.misses == t.misses
    ensures s.counters == t.counters
    ensures forall e :: e in s.series <==> e in t.series
  {
    assert Clean(s.counters) == s.counters && Clean(t.counters) == t.counters;
    forall name
      ensures CounterAt(s.counters, name) == CounterAt(t.counters, name)
    {
      assert Ask(s, Counter(name)) == Ask(t, Counter(name));
    }
    SameCounters(s.counters, t.counters);
    assert Ask(s, Created) == Ask(t, Created);
    assert Ask(s, Redirects) == Ask(t, Redirects) && Ask(s, Misses) == Ask(t, Misses);
    forall i | 0 <= i < |s.series|
      ensures s.series[i] in t.series
    {
      EntryCarries(s, t, i);
    }
    forall i | 0 <= i < |t.series|
      ensures t.series[i] in s.series
    {
      EntryCarries(t, s, i);
    }
  }
}
