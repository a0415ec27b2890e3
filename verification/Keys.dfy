/** The Redis key layout (src/cache/keys.ts), which the C++ redirect service shares
    (cpp-redirect/src/core.hpp). */
module Keys {
  import opened Bits
  import opened Numbers
  import opened Wrappers

  const LINK_KEY_SHARDS: nat := 1024

  type Byte = b: int | 0 <= b < 256

  /** 32-bit FNV-1a with wrap-around multiplication. */
  function Fnv1a(bytes: seq<Byte>): nat {
    if bytes == [] then 0x811c9dc5
    else Xor(Fnv1a(bytes[..|bytes| - 1]), bytes[|bytes| - 1]) * 0x01000193 % 0x1_0000_0000
  }

  const WORD: int := 0x1_0000_0000

  /** JavaScript's conversions to signed and unsigned 32-bit integers. */
  function ToUint32(x: int): nat {
    x % WORD
  }

  function ToInt32(x: int): int {
    if x % WORD < 0x8000_0000 then x % WORD else x % WORD - WORD
  }

  lemma Power2Of32()
    ensures Power(2, 32) == WORD
  {
    assert Power(2, 8) == 256;
    assert Power(2, 16) == 65536;
    assert Power(2, 24) == 16777216;
  }

  lemma WordFits(a: nat, b: nat)
    requires a < WORD && b < WORD
    ensures Xor(a, b) < WORD
  {
    Power2Of32();
    XorFits(a, b, 32);
  }

  /** Going through a signed word loses nothing. */
  lemma SignedAndBack(x: int)
    ensures ToUint32(ToInt32(x)) == ToUint32(x)
  {
  }

  lemma SignedStep(x: nat, p: nat, mixed: int, product: int)
    requires x < WORD && mixed == ToInt32(x) && product == ToInt32(ToUint32(mixed) * p)
    ensures ToUint32(product) == x * p % WORD
  {
    SignedAndBack(x);
    SignedAndBack(x * p);
    assert ToUint32(x) == x;
  }

  /** One turn of the Node.js loop: ^ and Math.imul give signed words, >>> 0 makes them unsigned. */
  method NextHash(hash: nat, byte: Byte) returns (next: nat)
    requires hash < WORD
    ensures next == Xor(hash, byte) * 0x01000193 % WORD
  {
    WordFits(hash, byte);
    WordIsItself(hash);
    var mixed := ToInt32(Xor(ToUint32(hash), byte));
    var product := ToInt32(ToUint32(mixed) * 0x01000193);
    SignedStep(Xor(hash, byte), 0x01000193, mixed, product);
    next := ToUint32(product);
  }

  lemma WordIsItself(x: nat)
    requires x < WORD
    ensures ToUint32(x) == x
  {
  }

  method Fnv1a32(bytes: seq<Byte>) returns (hash: nat)
    ensures hash == Fnv1a(bytes)
  {
    hash := 0x811c9dc5;
    for i := 0 to |bytes|
      invariant hash == Fnv1a(bytes[..i]) && hash < WORD
    {
      assert bytes[..i + 1][..i] == bytes[..i];
      hash := NextHash(hash, bytes[i]);
    }
    assert bytes[..|bytes|] == bytes;
  }

  /** The C++ loop, in unsigned words throughout. */
  method CoreFnv1a32(bytes: seq<Byte>) returns (hash: nat)
    ensures hash == Fnv1a(bytes)
  {
    hash := 0x811c9dc5;
    for i := 0 to |bytes|
      invariant hash == Fnv1a(bytes[..i])
    {
      assert bytes[..i + 1][..i] == bytes[..i];
      hash := Xor(hash, bytes[i]);
      hash := hash * 0x01000193 % WORD;
    }
    assert bytes[..|bytes|] == bytes;
  }

  lemma HashStep(front: seq<Byte>, b: Byte, hash: nat, mixed: nat, next: nat)
    requires Fnv1a(front) == hash && AgreesUpTo(hash, b, mixed, 8) && next == mixed * 0x01000193 % 0x1_0000_0000
    ensures Fnv1a(front + [b]) == next
  {
    assert (front + [b])[..|front|] == front;
    XorIs(hash, b, mixed, 8);
  }

  /** The reference values that the tests of both services hold their loops to: of no byte, and of
      the letter a. */
  lemma HashOfA()
    ensures Fnv1a([]) == 0x811c9dc5
    ensures Fnv1a([97]) == 0xe40c292c
  {
    assert [] + [97] == [97];
    HashStep([], 97, 0x811c9dc5, 0x811c9da4, 0xe40c292c);
  }

  /** One byte per character: codes are plain ASCII. */
  function Bytes(code: string): seq<Byte> {
    seq(|code|, i requires 0 <= i < |code| => code[i] as int % 256)
  }

  function ShardOf(code: string): (shard: nat)
    ensures shard < LINK_KEY_SHARDS
  {
    Fnv1a(Bytes(code)) % LINK_KEY_SHARDS
  }

  function PadStart(s: string, length: nat, c: char): string
    decreases length - |s|
  {
    if |s| >= length then s else PadStart([c] + s, length, c)
  }

  function ShardTag(shard: nat): string {
    "{" + PadStart(Decimal(shard), 4, '0') + "}"
  }

  /** The four digits the C++ service pushes one by one. */
  function CoreShardTag(shard: nat): string {
    "{" + [DecimalDigit(shard / 1000 % 10), DecimalDigit(shard / 100 % 10), DecimalDigit(shard / 10 % 10),
           DecimalDigit(shard % 10)] + "}"
  }

  function LinkKey(code: string): string {
    "wraplink:link:" + ShardTag(ShardOf(code)) + ":" + code
  }

  function CoreLinkKey(code: string): string {
    "wraplink:link:" + CoreShardTag(ShardOf(code)) + ":" + code
  }

  function SyncQueueKey(shard: nat): string {
    "wraplink:sync:queue:" + ShardTag(shard)
  }

  function SyncLockKey(shard: nat): string {
    "wraplink:sync:lock:" + ShardTag(shard)
  }

  function SyncDeadLetterKey(shard: nat): string {
    "wraplink:sync:dead:" + ShardTag(shard)
  }

  lemma {:induction false} Padding(s: string)
    requires 1 <= |s| <= 4
    ensures |s| == 1 ==> PadStart(s, 4, '0') == ['0', '0', '0', s[0]]
    ensures |s| == 2 ==> PadStart(s, 4, '0') == ['0', '0', s[0], s[1]]
    ensures |s| == 3 ==> PadStart(s, 4, '0') == ['0', s[0], s[1], s[2]]
    ensures |s| == 4 ==> PadStart(s, 4, '0') == s
    decreases 4 - |s|
  {
    if |s| < 4 {
      Padding(['0'] + s);
    }
  }

  lemma DecimalDigits(n: nat)
    requires n < LINK_KEY_SHARDS
    ensures PadStart(Decimal(n), 4, '0')
         == [DecimalDigit(n / 1000 % 10), DecimalDigit(n / 100 % 10), DecimalDigit(n / 10 % 10), DecimalDigit(n % 10)]
  {
    if n >= 10 {
      DecimalOfTens(n);
    }
    Padding(Decimal(n));
  }

  lemma DecimalOfTens(n: nat)
    requires 10 <= n < LINK_KEY_SHARDS
    ensures Decimal(n) == if n < 100 then [DecimalDigit(n / 10 % 10), DecimalDigit(n % 10)]
                          else if n < 1000 then
                            [DecimalDigit(n / 100 % 10), DecimalDigit(n / 10 % 10), DecimalDigit(n % 10)]
                          else [DecimalDigit(n / 1000 % 10), DecimalDigit(n / 100 % 10), DecimalDigit(n / 10 % 10),
                                DecimalDigit(n % 10)]
    decreases n
  {
    assert n / 10 / 10 == n / 100 && n / 100 / 10 == n / 1000;
    if n >= 100 {
      DecimalOfTens(n / 10);
    }
  }

  /** Both services build the same key for every code. */
  lemma ServicesAgreeOnKeys(code: string)
    ensures LinkKey(code) == CoreLinkKey(code)
  {
    DecimalDigits(ShardOf(code));
  }

  /** The C++ key from its own hash, digit by digit: the key the Node.js service uses. */
  method BuildCoreLinkKey(code: string) returns (key: string)
    ensures key == LinkKey(code)
  {
    var hash := CoreFnv1a32(Bytes(code));
    var shard := hash % LINK_KEY_SHARDS;
    key := "wraplink:link:" + "{";
    key := key + [DecimalDigit(shard / 1000 % 10)];
    key := key + [DecimalDigit(shard / 100 % 10)];
    key := key + [DecimalDigit(shard / 10 % 10)];
    key := key + [DecimalDigit(shard % 10)];
    key := key + "}" + ":" + code;
    ServicesAgreeOnKeys(code);
    assert key == CoreLinkKey(code);
  }

  /** The Node.js key from its own hash. */
  method BuildLinkKey(code: string) returns (key: string)
    ensures key == LinkKey(code)
    ensures ShardOf(code) == Fnv1a(Bytes(code)) % 1024
  {
    var hash := Fnv1a32(Bytes(code));
    key := "wraplink:link:" + ShardTag(hash % LINK_KEY_SHARDS) + ":" + code;
  }

  /** What the keys of a link in shard 210 look like, such as the ones of both services' tests. */
  lemma KeysOfShard210(code: string, shard: nat)
    requires ShardOf(code) == shard && shard == 210
    ensures LinkKey(code) == "wraplink:link:{0210}:" + code
    ensures SyncQueueKey(shard) == "wraplink:sync:queue:{0210}"
    ensures SyncLockKey(shard) == "wraplink:sync:lock:{0210}"
    ensures SyncDeadLetterKey(shard) == "wraplink:sync:dead:{0210}"
  {
    DecimalDigits(shard);
    assert ShardTag(shard) == "{0210}";
  }

  lemma TagsDiffer(a: nat, b: nat)
    requires a < LINK_KEY_SHARDS && b < LINK_KEY_SHARDS && a != b
    ensures |ShardTag(a)| == |ShardTag(b)| == 6 && ShardTag(a) != ShardTag(b)
  {
    DecimalDigits(a);
    DecimalDigits(b);
    if ShardTag(a) == ShardTag(b) {
      var s, t := ShardTag(a), ShardTag(b);
      assert s[1] == t[1] && s[2] == t[2] && s[3] == t[3] && s[4] == t[4];
      FourDigits(a);
      FourDigits(b);
    }
  }

  lemma FourDigits(n: nat)
    requires n < LINK_KEY_SHARDS
    ensures n == n / 1000 % 10 * 1000 + n / 100 % 10 * 100 + n / 10 % 10 * 10 + n % 10
  {
  }

  lemma TagLength(shard: nat)
    requires shard < LINK_KEY_SHARDS
    ensures |ShardTag(shard)| == 6
  {
    DecimalDigits(shard);
  }

  /** No two links share a key. */
  lemma LinkKeysDiffer(a: string, b: string)
    requires a != b
    ensures LinkKey(a) != LinkKey(b)
  {
    TagLength(ShardOf(a));
    TagLength(ShardOf(b));
    assert LinkKey(a)[21..] == a;
    assert LinkKey(b)[21..] == b;
  }

  /** A shard's queue, lock and dead letters are three keys, none of them a link key, and no
      other shard's. */
  lemma ShardKeysDiffer(a: nat, b: nat, code: string)
    requires a < LINK_KEY_SHARDS && b < LINK_KEY_SHARDS
    ensures SyncQueueKey(a) != SyncLockKey(b) && SyncQueueKey(a) != SyncDeadLetterKey(b)
    ensures SyncLockKey(a) != SyncDeadLetterKey(b)
    ensures LinkKey(code) != SyncQueueKey(a) && LinkKey(code) != SyncLockKey(a)
    ensures LinkKey(code) != SyncDeadLetterKey(a)
    ensures a != b ==> SyncQueueKey(a) != SyncQueueKey(b) && SyncLockKey(a) != SyncLockKey(b)
                       && SyncDeadLetterKey(a) != SyncDeadLetterKey(b)
  {
    assert SyncQueueKey(a)[14] == 'q' && SyncLockKey(b)[14] == 'l' && SyncDeadLetterKey(b)[14] == 'd';
    assert SyncLockKey(a)[14] == 'l' && SyncDeadLetterKey(a)[14] == 'd';
    assert LinkKey(code)[9] == 'l' && SyncQueueKey(a)[9] == 's' && SyncLockKey(a)[9] == 's';
    assert SyncDeadLetterKey(a)[9] == 's';
    if a != b {
      TagsDiffer(a, b);
      assert SyncQueueKey(a)[20..] == ShardTag(a) && SyncQueueKey(b)[20..] == ShardTag(b);
      assert SyncLockKey(a)[19..] == ShardTag(a) && SyncLockKey(b)[19..] == ShardTag(b);
      assert SyncDeadLetterKey(a)[19..] == ShardTag(a) && SyncDeadLetterKey(b)[19..] == ShardTag(b);
    }
  }

  /** The shards of one of `workerCount` workers: every workerCount-th shard, each listed once. */
  method ShardsForWorker(workerIndex: int, workerCount: int) returns (r: Result<seq<nat>>)
    ensures r.Ok? <==> 0 <= workerIndex < workerCount
    ensures r.Ok? ==> forall shard ::
              shard in r.value <==> 0 <= shard < 1024 && shard % workerCount == workerIndex
    ensures r.Ok? ==> forall i, j :: 0 <= i < j < |r.value| ==> r.value[i] < r.value[j]
  {
    if workerCount < 1 || workerIndex < 0 || workerIndex >= workerCount {
      return Err("worker index must be within [0, workerCount)");
    }
    var shards: seq<nat> := [];
    var shard := workerIndex;
    while shard < LINK_KEY_SHARDS
      invariant workerIndex <= shard && shard % workerCount == workerIndex
      invariant ListsOwned(shards, shard, workerIndex, workerCount)
    {
      OneMoreListed(shards, shard, workerIndex, workerCount);
      shards := shards + [shard];
      shard := shard + workerCount;
    }
    return Ok(shards);
  }

  /** The worker's shards below `end`, increasing. */
  ghost predicate ListsOwned(shards: seq<nat>, end: nat, index: int, count: int)
    requires count > 0
  {
    && (forall s :: s in shards <==> 0 <= s < end && s < LINK_KEY_SHARDS && s % count == index)
    && (forall i, j :: 0 <= i < j < |shards| ==> shards[i] < shards[j])
  }

  lemma OneMoreListed(shards: seq<nat>, shard: nat, index: int, count: int)
    requires 0 <= index < count && shard < LINK_KEY_SHARDS && shard % count == index
    requires ListsOwned(shards, shard, index, count)
    ensures ListsOwned(shards + [shard], shard + count, index, count) && (shard + count) % count == index
  {
    NextOwned(index, count, shard);
    assert forall i :: 0 <= i < |shards| ==> shards[i] in shards;
  }

  /** Between two multiples-apart shards there is no other one of the same worker. */
  lemma NextOwned(index: int, count: int, shard: int)
    requires 0 <= index < count && shard >= 0 && shard % count == index
    ensures (shard + count) % count == index
    ensures forall s :: shard < s < shard + count ==> s % count != index
  {
    RemainderStep(shard, count, count);
    forall s | shard < s < shard + count
      ensures s % count != index
    {
      RemainderStep(shard, count, s - shard);
    }
  }

  lemma RemainderStep(a: int, n: int, d: int)
    requires n > 0 && 0 < d <= n && a >= 0
    ensures d < n ==> (a + d) % n != a % n
    ensures d == n ==> (a + d) % n == a % n
  {
    var q, r := a / n, a % n;
    assert a == n * q + r;
    if r + d < n {
      Remainder(a + d, n, q, r + d);
    } else {
      assert n * (q + 1) == n * q + n;
      Remainder(a + d, n, q + 1, r + d - n);
    }
  }
}
