/** The keyed permutation behind generated short codes (src/domain/code-allocator.ts). */
module CodeScrambler {
  import opened Base62
  import opened Bits
  import opened CycleWalk
  import opened Numbers
  import opened Wrappers

  const HALF_SIZE: int := 0x800_0000
  const FEISTEL_ROUNDS: nat := 8
  const ALLOCATED_CODE_LENGTH: nat := 9
  const ALLOCATED_CODE_SPACE: nat := 62 * 62 * 62 * 62 * 62 * 62 * 62 * 62 * 62
  const SPACE_HIGH: nat := ALLOCATED_CODE_SPACE / HALF_SIZE
  const SPACE_LOW: nat := ALLOCATED_CODE_SPACE % HALF_SIZE

  type Half = x: int | 0 <= x < HALF_SIZE

  /** A 54-bit number as two 27-bit halves. */
  datatype Halves = Halves(high: Half, low: Half) {
    function Value(): nat {
      high * HALF_SIZE + low
    }
  }

  /** What the network mixes into the left half in a given round. */
  type RoundFunction = (nat, Half) -> Half

  predicate InsideCodeSpace(h: Halves) {
    h.high < SPACE_HIGH || (h.high == SPACE_HIGH && h.low < SPACE_LOW)
  }

  /** The test on halves is the test on the number they make. */
  lemma InsideExactly(h: Halves)
    ensures InsideCodeSpace(h) <==> h.Value() < ALLOCATED_CODE_SPACE
  {
  }

  function Split(id: nat): (h: Halves)
    requires id < ALLOCATED_CODE_SPACE
    ensures h.Value() == id && InsideCodeSpace(h)
  {
    Halves(id / HALF_SIZE, id % HALF_SIZE)
  }

  lemma Power2Of27()
    ensures Power(2, 27) == HALF_SIZE
  {
    assert Power(2, 9) == 512;
    assert Power(2, 18) == 262144;
  }

  function XorHalves(a: Half, b: Half): Half {
    Power2Of27();
    XorFits(a, b, 27);
    Xor(a, b)
  }

  lemma XorHalvesCancels(a: Half, b: Half)
    ensures XorHalves(XorHalves(a, b), b) == a
  {
    XorCancels(a, b);
  }

  /** One round swaps the halves and mixes the old right half into the new right half. */
  function Round(f: RoundFunction, round: nat, h: Halves): Halves {
    Halves(h.low, XorHalves(h.high, f(round, h.low)))
  }

  function UndoRound(f: RoundFunction, round: nat, h: Halves): Halves {
    Halves(XorHalves(h.low, f(round, h.high)), h.high)
  }

  function Rounds(f: RoundFunction, n: nat, h: Halves): Halves
    decreases n, h
  {
    if n == 0 then h else Round(f, n - 1, Rounds(f, n - 1, h))
  }

  function UndoRounds(f: RoundFunction, n: nat, h: Halves): Halves
    decreases n, h
  {
    if n == 0 then h else UndoRounds(f, n - 1, UndoRound(f, n - 1, h))
  }

  lemma RoundInverse(f: RoundFunction, round: nat, h: Halves)
    ensures UndoRound(f, round, Round(f, round, h)) == h
    ensures Round(f, round, UndoRound(f, round, h)) == h
  {
    XorHalvesCancels(h.high, f(round, h.low));
    XorHalvesCancels(h.low, f(round, h.high));
  }

  /** A Feistel network is a bijection of pairs of halves for every round function. */
  lemma {:induction false} RoundsInverse(f: RoundFunction, n: nat, h: Halves)
    ensures UndoRounds(f, n, Rounds(f, n, h)) == h
    ensures Rounds(f, n, UndoRounds(f, n, h)) == h
  {
    if n > 0 {
      RoundInverse(f, n - 1, Rounds(f, n - 1, h));
      RoundInverse(f, n - 1, h);
      RoundsInverse(f, n - 1, h);
      RoundsInverse(f, n - 1, UndoRound(f, n - 1, h));
    }
  }

  /** The textbook form of the network, without halves: each new word is the one before the last,
      mixed with what the round function makes of the last. */
  function Word(f: RoundFunction, h: Halves, i: nat): Half {
    if i == 0 then h.high
    else if i == 1 then h.low
    else XorHalves(Word(f, h, i - 2), f(i - 2, Word(f, h, i - 1)))
  }

  lemma {:induction false} RoundsAreWords(f: RoundFunction, n: nat, h: Halves)
    ensures Rounds(f, n, h) == Halves(Word(f, h, n), Word(f, h, n + 1))
    decreases n
  {
    if n > 0 {
      RoundsAreWords(f, n - 1, h);
    }
  }

  /** Bit by bit: a bit of the new word is set exactly when one of the two it is mixed from is. */
  lemma WordBits(f: RoundFunction, h: Halves, i: nat, k: nat)
    ensures Bit(Word(f, h, i + 2), k) == (Bit(Word(f, h, i), k) + Bit(f(i, Word(f, h, i + 1)), k)) % 2
  {
    XorBits(Word(f, h, i), f(i, Word(f, h, i + 1)), k);
  }

  /** The network has eight rounds. */
  lemma EightRounds(f: RoundFunction, h: Halves, n: nat)
    requires n == 8
    ensures FEISTEL_ROUNDS == n && Feistel(f)(h) == Halves(Word(f, h, n), Word(f, h, n + 1))
  {
    RoundsAreWords(f, n, h);
  }

  function Feistel(f: RoundFunction): Halves -> Halves {
    h => Rounds(f, FEISTEL_ROUNDS, h)
  }

  function FeistelBack(f: RoundFunction): Halves -> Halves {
    h => UndoRounds(f, FEISTEL_ROUNDS, h)
  }

  ghost function AllHalves(): set<Halves> {
    set high: Half, low: Half {:trigger Halves(high, low)} | true :: Halves(high, low)
  }

  lemma InAllHalves(h: Halves)
    ensures h in AllHalves()
  {
    assert h == Halves(h.high, h.low);
  }

  lemma FeistelInverse(f: RoundFunction)
    ensures Inverses(AllHalves(), Feistel(f), FeistelBack(f))
    ensures Inverses(AllHalves(), FeistelBack(f), Feistel(f))
  {
    forall h: Halves
      ensures h in AllHalves() && FeistelBack(f)(Feistel(f)(h)) == h && Feistel(f)(FeistelBack(f)(h)) == h
    {
      InAllHalves(h);
      FeistelUndone(f, h);
    }
    InversesEverywhere(AllHalves(), Feistel(f), FeistelBack(f));
  }

  lemma FeistelUndone(f: RoundFunction, h: Halves)
    ensures FeistelBack(f)(Feistel(f)(h)) == h && Feistel(f)(FeistelBack(f)(h)) == h
  {
    RoundsInverse(f, FEISTEL_ROUNDS, h);
  }

  /** Where the cycle walk with the network takes a pair of halves, and where the same walk
      with the network run backwards does. */
  ghost function Walked(f: RoundFunction, h: Halves): (r: Halves)
    requires InsideCodeSpace(h)
    ensures InsideCodeSpace(r)
  {
    FeistelInverse(f);
    InAllHalves(h);
    FirstReturn(AllHalves(), Feistel(f), FeistelBack(f), InsideCodeSpace, h)
  }

  ghost function WalkedBack(f: RoundFunction, h: Halves): (r: Halves)
    requires InsideCodeSpace(h)
    ensures InsideCodeSpace(r)
  {
    FeistelInverse(f);
    InAllHalves(h);
    FirstReturn(AllHalves(), FeistelBack(f), Feistel(f), InsideCodeSpace, h)
  }

  lemma WalkedInverse(f: RoundFunction, h: Halves)
    requires InsideCodeSpace(h)
    ensures WalkedBack(f, Walked(f, h)) == h && Walked(f, WalkedBack(f, h)) == h
  {
    FeistelInverse(f);
    InAllHalves(h);
    FirstReturnInverse(AllHalves(), Feistel(f), FeistelBack(f), InsideCodeSpace, h);
    FirstReturnInverse(AllHalves(), FeistelBack(f), Feistel(f), InsideCodeSpace, h);
  }

  /** The `k`-th point of the walk. */
  ghost function Orbit(f: RoundFunction, k: nat, h: Halves): Halves {
    Iterate(Feistel(f), k, h)
  }

  lemma OrbitStep(f: RoundFunction, k: nat, h: Halves)
    ensures Orbit(f, 0, h) == h
    ensures Orbit(f, k + 1, h) == Rounds(f, FEISTEL_ROUNDS, Orbit(f, k, h))
  {
  }

  /** The walk ends: at some step it is back inside for the first time. */
  lemma WalkedSteps(f: RoundFunction, h: Halves) returns (steps: nat)
    requires InsideCodeSpace(h)
    ensures steps >= 1 && Orbit(f, steps, h) == Walked(f, h)
    ensures forall i :: 1 <= i < steps ==> !InsideCodeSpace(Orbit(f, i, h))
  {
    FeistelInverse(f);
    InAllHalves(h);
    steps := ReturnSteps(AllHalves(), Feistel(f), FeistelBack(f), InsideCodeSpace, h);
  }

  /** The permuted id is the first number inside the code space that the walk from the halves of the
      id comes to, eight rounds at a time. */
  lemma PermutedSteps(f: RoundFunction, id: nat) returns (steps: nat)
    requires id < ALLOCATED_CODE_SPACE
    ensures steps >= 1
    ensures var start := Halves(id / HALF_SIZE, id % HALF_SIZE);
            && Permuted(f, id) == Orbit(f, steps, start).Value() < ALLOCATED_CODE_SPACE
            && forall i :: 1 <= i < steps ==> Orbit(f, i, start).Value() >= ALLOCATED_CODE_SPACE
  {
    steps := WalkedSteps(f, Split(id));
    forall i | 1 <= i < steps
      ensures Orbit(f, i, Split(id)).Value() >= ALLOCATED_CODE_SPACE
    {
      InsideExactly(Orbit(f, i, Split(id)));
    }
  }

  /** The orbit: eight rounds from one point to the next. */
  lemma OrbitWords(f: RoundFunction, k: nat, h: Halves)
    ensures Orbit(f, 0, h) == h
    ensures Orbit(f, k + 1, h) == Halves(Word(f, Orbit(f, k, h), FEISTEL_ROUNDS),
                                         Word(f, Orbit(f, k, h), FEISTEL_ROUNDS + 1))
  {
    OrbitStep(f, k, h);
    RoundsAreWords(f, FEISTEL_ROUNDS, Orbit(f, k, h));
  }

  ghost function Permuted(f: RoundFunction, id: nat): (p: nat)
    requires id < ALLOCATED_CODE_SPACE
    ensures p < ALLOCATED_CODE_SPACE
  {
    Walked(f, Split(id)).Value()
  }

  ghost function Unpermuted(f: RoundFunction, p: nat): (id: nat)
    requires p < ALLOCATED_CODE_SPACE
    ensures id < ALLOCATED_CODE_SPACE
  {
    WalkedBack(f, Split(p)).Value()
  }

  lemma SplitValue(h: Halves)
    requires InsideCodeSpace(h)
    ensures h.Value() < ALLOCATED_CODE_SPACE && Split(h.Value()) == h
  {
  }

  /** For every round function, hence for every secret, the walk is a bijection of the code
      space onto itself. */
  lemma PermutedIsBijection(f: RoundFunction, id: nat)
    requires id < ALLOCATED_CODE_SPACE
    ensures Unpermuted(f, Permuted(f, id)) == id
    ensures Permuted(f, Unpermuted(f, id)) == id
  {
    SplitValue(Walked(f, Split(id)));
    SplitValue(WalkedBack(f, Split(id)));
    WalkedInverse(f, Split(id));
  }

  /** The short code of an id, and the id of a short code. */
  ghost function CodeOf(f: RoundFunction, id: nat): (code: string)
    requires id < ALLOCATED_CODE_SPACE
    ensures |code| == ALLOCATED_CODE_LENGTH && IsNumeral(code)
  {
    Numeral(Permuted(f, id), ALLOCATED_CODE_LENGTH)
  }

  ghost function IdOf(f: RoundFunction, code: string): (id: nat)
    requires |code| == ALLOCATED_CODE_LENGTH && IsNumeral(code)
    ensures id < ALLOCATED_CODE_SPACE
  {
    ReadThenPrint(code);
    CodeSpaceIsPower();
    Unpermuted(f, NumeralValue(code))
  }

  lemma CodeSpaceIsPower()
    ensures Power(62, ALLOCATED_CODE_LENGTH) == ALLOCATED_CODE_SPACE == 13537086546263552
    ensures ALLOCATED_CODE_LENGTH == 9 && HALF_SIZE == 0x800_0000
  {
    assert Power(62, 3) == 62 * 62 * 62;
    assert Power(62, 6) == 62 * 62 * 62 * 62 * 62 * 62;
  }

  /** Each character of a code is the digit that the permuted id has in that place. */
  lemma CodeCharacter(f: RoundFunction, id: nat, k: nat)
    requires id < ALLOCATED_CODE_SPACE && k < 9
    ensures Power(62, 8 - k) >= 1 && |ALPHABET| == 62
    ensures CodeOf(f, id)[k] == ALPHABET[Permuted(f, id) / Power(62, 8 - k) % 62]
  {
    NumeralAt(Permuted(f, id), ALLOCATED_CODE_LENGTH, k);
  }

  /** Distinct ids have distinct codes. */
  lemma CodeDeterminesId(f: RoundFunction, id: nat)
    requires id < ALLOCATED_CODE_SPACE
    ensures IdOf(f, CodeOf(f, id)) == id
  {
    CodeSpaceIsPower();
    PrintThenRead(Permuted(f, id), ALLOCATED_CODE_LENGTH);
    PermutedIsBijection(f, id);
  }

  /** Every string of nine Base62 characters is the code of an id. */
  lemma EveryCodeIsUsed(f: RoundFunction, code: string)
    requires |code| == ALLOCATED_CODE_LENGTH && IsNumeral(code)
    ensures CodeOf(f, IdOf(f, code)) == code
  {
    CodeSpaceIsPower();
    ReadThenPrint(code);
    PermutedIsBijection(f, NumeralValue(code));
  }

  /** The MurmurHash3-style mixer, in 32-bit wrap-around arithmetic. */
  function MixWord(word: bv32, keyA: bv32, keyB: bv32): bv32 {
    var h0: bv32 := word ^ keyA;
    var h1: bv32 := (h0 ^ (h0 >> 16)) * 0x85ebca6b;
    var h2: bv32 := (h1 ^ (h1 >> 13)) * 0xc2b2ae35;
    var h3: bv32 := h2 ^ (h2 >> 16);
    var h4: bv32 := (h3 ^ keyB) * 0x9e3779b1;
    h4 ^ (h4 >> 15)
  }

  /** Values of the mixer, so that no constant and no shift can be another one. */
  lemma MixerValues()
    ensures MixWord(1, 0, 0) == 0xd99816b4
    ensures MixWord(0x07654321, 0x89abcdef, 0x12345678) == 0xd6ee9de4
  {
  }

  function Mix(half: Half, keyA: bv32, keyB: bv32): Half {
    (MixWord(half as bv32, keyA, keyB) as int) % HALF_SIZE
  }

  /** The round function of a key schedule with two words per round. */
  function KeyedRounds(keys: seq<bv32>): RoundFunction {
    (round: nat, half: Half) =>
      if round * 2 + 1 < |keys| then Mix(half, keys[round * 2], keys[round * 2 + 1]) else 0
  }

  /** One step of the long division: the carried remainder stays far below 2^53. */
  lemma DivideByParts(high: Half, low: Half)
    ensures var combined := high % 62 * HALF_SIZE + low;
            && 0 <= combined < 0x2_0000_0000 && combined / 62 < HALF_SIZE
            && high / 62 * HALF_SIZE + combined / 62 == (high * HALF_SIZE + low) / 62
            && combined % 62 == (high * HALF_SIZE + low) % 62
  {
  }

  /** The first `n` digits are still to be printed from the two halves; the others are in `tail`. */
  predicate DigitsLeft(high: int, low: int, n: nat, whole: string, tail: string) {
    && 0 <= high < HALF_SIZE && 0 <= low < HALF_SIZE && high * HALF_SIZE + low < Power(62, n)
    && whole == Numeral(high * HALF_SIZE + low, n) + tail
  }

  /** One turn of the division puts one more digit in its place. */
  lemma DigitStep(high: int, low: int, index: nat, whole: string, tail: string)
    requires DigitsLeft(high, low, index + 1, whole, tail)
    ensures var combined := high % 62 * HALF_SIZE + low;
            DigitsLeft(high / 62, combined / 62, index, whole, [Letter(combined % 62)] + tail)
  {
    var rest := high * HALF_SIZE + low;
    QuotientFits(rest, index + 1);
    DivideByParts(high, low);
    assert Numeral(rest, index + 1) == Numeral(rest / 62, index) + [Letter(rest % 62)];
  }

  class Scrambler {
    const round: RoundFunction

    /** The key words are derived from the secret elsewhere. */
    constructor (roundKeys: seq<bv32>)
      requires |roundKeys| == FEISTEL_ROUNDS * 2
      ensures round == KeyedRounds(roundKeys)
      ensures forall r: nat, half: Half :: r < 8 ==>
                round(r, half) == (MixWord(half as bv32, roundKeys[r * 2], roundKeys[r * 2 + 1]) as int) % 0x800_0000
    {
      round := KeyedRounds(roundKeys);
    }

    method ApplyFeistel(high: Half, low: Half) returns (left: Half, right: Half)
      ensures Halves(left, right) == Rounds(round, FEISTEL_ROUNDS, Halves(high, low))
    {
      ghost var f := round;
      left, right := high, low;
      for index := 0 to FEISTEL_ROUNDS
        invariant Halves(left, right) == Rounds(f, index, Halves(high, low))
      {
        ghost var before := Halves(left, right);
        var mixed := XorHalves(left, round(index, right));
        left := right;
        right := mixed;
        assert Halves(left, right) == Round(f, index, before);
      }
    }

    method PermuteHalves(high: Half, low: Half) returns (left: Half, right: Half)
      requires InsideCodeSpace(Halves(high, low))
      ensures Halves(left, right) == Walked(round, Halves(high, low))
    {
      ghost var start := Halves(high, low);
      ghost var steps := WalkedSteps(round, start);
      left, right := ApplyFeistel(high, low);
      ghost var k := 1;
      OrbitStep(round, 0, start);
      while !InsideCodeSpace(Halves(left, right))
        invariant 1 <= k <= steps
        invariant Halves(left, right) == Orbit(round, k, start)
        decreases steps - k
      {
        left, right := ApplyFeistel(left, right);
        OrbitStep(round, k, start);
        k := k + 1;
      }
    }

    method Permute(id: int) returns (r: Result<nat>)
      ensures r.Ok? <==> 0 <= id < ALLOCATED_CODE_SPACE
      ensures r.Ok? ==> r.value == Permuted(round, id)
    {
      if id < 0 || id >= ALLOCATED_CODE_SPACE {
        return Err("id is outside the code space");
      }
      ghost var start := Split(id);
      var high, low := PermuteHalves(id / HALF_SIZE, id % HALF_SIZE);
      return Ok(high * HALF_SIZE + low);
    }

    /** Base62 digits straight from the two halves, without big integers. */
    method Digits(h: Half, l: Half, length: nat) returns (text: string)
      requires Halves(h, l).Value() < Power(62, length)
      ensures text == Numeral(Halves(h, l).Value(), length)
    {
      var high: int, low: int := h, l;
      ghost var whole := Numeral(Halves(h, l).Value(), length);
      var characters := new char[length];
      var index: int := length - 1;
      while index >= 0
        invariant -1 <= index < length
        invariant DigitsLeft(high, low, index + 1, whole, characters[index + 1..])
      {
        ghost var tail := characters[index + 1..];
        DigitStep(high, low, index, whole, tail);
        var highRemainder := high % 62;
        high := high / 62;
        var combined := highRemainder * HALF_SIZE + low;
        low := combined / 62;
        characters[index] := Letter(combined % 62);
        assert characters[index..] == [Letter(combined % 62)] + tail;
        index := index - 1;
      }
      assert high == 0 && low == 0; // nothing is left over after the last digit
      assert characters[0..] == characters[..];
      return characters[..];
    }

    /** The hot path of code generation. */
    method Encode(id: int) returns (r: Result<string>)
      ensures r.Ok? <==> 0 <= id < ALLOCATED_CODE_SPACE
      ensures r.Ok? ==> r.value == CodeOf(round, id)
    {
      if id < 0 || id >= ALLOCATED_CODE_SPACE {
        return Err("id is outside the code space");
      }
      ghost var start := Split(id);
      var high, low := PermuteHalves(id / HALF_SIZE, id % HALF_SIZE);
      CodeSpaceIsPower();
      var text := Digits(high, low, ALLOCATED_CODE_LENGTH);
      return Ok(text);
    }
  }
}
