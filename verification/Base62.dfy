/** Fixed-width Base62 numerals (src/domain/code-allocator.ts). */
module Base62 {
  import opened Numbers
  import opened Wrappers

  /** The alphabet is the digits, then the upper-case letters, then the lower-case ones. */
  function Letter(d: nat): (c: char)
    requires d < 62
    ensures IsLetter(c) && DigitValue(c) == d
  {
    if d < 10 then '0' + d as char
    else if d < 36 then 'A' + (d - 10) as char
    else 'a' + (d - 36) as char
  }

  const DIGITS: string := "0123456789"
  const CAPITALS: string := "ABCDEFGHIJKLMNOPQRSTUVWXYZ"
  const SMALL_LETTERS: string := "abcdefghijklmnopqrstuvwxyz"
  const ALPHABET: string := DIGITS + CAPITALS + SMALL_LETTERS

  lemma DigitLetters(d: nat)
    requires d < 10
    ensures DIGITS[d] == Letter(d)
  {
  }

  lemma CapitalLetters(d: nat)
    requires d < 26
    ensures CAPITALS[d] == Letter(d + 10)
  {
  }

  lemma SmallLetters(d: nat)
    requires d < 26
    ensures SMALL_LETTERS[d] == Letter(d + 36)
  {
  }

  lemma LetterOfAlphabet(d: nat)
    requires d < 62
    ensures |DIGITS| == 10 && |CAPITALS| == 26 && |ALPHABET| == 62 && Letter(d) == ALPHABET[d]
  {
    if d < 10 {
      DigitLetters(d);
    } else if d < 36 {
      CapitalLetters(d - 10);
    } else {
      SmallLetters(d - 36);
    }
  }

  lemma InAlphabetExactly(c: char)
    ensures IsLetter(c) <==> c in ALPHABET
  {
    if IsLetter(c) {
      LetterOfAlphabet(DigitValue(c));
      LetterOfDigit(c);
    }
    forall d | 0 <= d < |ALPHABET|
      ensures IsLetter(ALPHABET[d])
    {
      LetterOfAlphabet(d);
    }
  }

  predicate IsLetter(c: char) {
    '0' <= c <= '9' || 'A' <= c <= 'Z' || 'a' <= c <= 'z'
  }

  /** The last `length` Base62 digits of `value`, most significant first. */
  function Numeral(value: nat, length: nat): (s: string)
    ensures |s| == length && IsNumeral(s)
  {
    if length == 0 then [] else Numeral(value / 62, length - 1) + [Letter(value % 62)]
  }

  /** The value without its last `k` digits. */
  function Without(value: nat, k: nat): nat {
    if k == 0 then value else Without(value / 62, k - 1)
  }

  lemma {:induction false} WithoutIsQuotient(value: nat, k: nat)
    ensures Power(62, k) >= 1 && Without(value, k) == value / Power(62, k)
  {
    if k > 0 {
      WithoutIsQuotient(value / 62, k - 1);
      QuotientOfQuotient(value, 62, Power(62, k - 1));
    }
  }

  lemma {:induction false} NumeralWithout(value: nat, length: nat, k: nat)
    requires k < length
    ensures Numeral(value, length)[k] == Letter(Without(value, length - 1 - k) % 62)
  {
    if k < length - 1 {
      NumeralWithout(value / 62, length - 1, k);
    }
  }

  /** The character at each place is the digit that the value has there. */
  lemma NumeralAt(value: nat, length: nat, k: nat)
    requires k < length
    ensures Power(62, length - 1 - k) >= 1 && |ALPHABET| == 62
    ensures Numeral(value, length)[k] == ALPHABET[value / Power(62, length - 1 - k) % 62]
  {
    NumeralWithout(value, length, k);
    WithoutIsQuotient(value, length - 1 - k);
    LetterOfAlphabet(Without(value, length - 1 - k) % 62);
  }

  predicate IsNumeral(s: string) {
    forall c :: c in s ==> IsLetter(c)
  }

  function DigitValue(c: char): (d: nat)
    requires IsLetter(c)
    ensures d < 62
  {
    if c <= '9' then c as int - '0' as int
    else if c <= 'Z' then c as int - 'A' as int + 10
    else c as int - 'a' as int + 36
  }

  lemma LetterOfDigit(c: char)
    requires IsLetter(c)
    ensures Letter(DigitValue(c)) == c
  {
  }

  function NumeralValue(s: string): (v: nat)
    requires IsNumeral(s)
  {
    if s == [] then 0 else NumeralValue(s[..|s| - 1]) * 62 + DigitValue(s[|s| - 1])
  }

  /** Reading a printed value gives it back, as long as it fits. */
  lemma {:induction false} PrintThenRead(value: nat, length: nat)
    requires value < Power(62, length)
    ensures NumeralValue(Numeral(value, length)) == value
  {
    if length > 0 {
      var s := Numeral(value, length);
      QuotientFits(value, length);
      PrintThenRead(value / 62, length - 1);
      assert s[..|s| - 1] == Numeral(value / 62, length - 1);
      LastDigit(s, value / 62, value % 62);
    }
  }

  lemma LastDigit(s: string, q: nat, d: nat)
    requires s != [] && IsNumeral(s) && d < 62 && s[|s| - 1] == Letter(d) && NumeralValue(s[..|s| - 1]) == q
    ensures NumeralValue(s) == q * 62 + d
  {
  }

  /** Printing a read numeral gives it back, and a numeral's value always fits its width. */
  lemma {:induction false} ReadThenPrint(s: string)
    requires IsNumeral(s)
    ensures NumeralValue(s) < Power(62, |s|)
    ensures Numeral(NumeralValue(s), |s|) == s
  {
    if s != [] {
      var front, d := s[..|s| - 1], DigitValue(s[|s| - 1]);
      ReadThenPrint(front);
      LetterOfDigit(s[|s| - 1]);
      assert NumeralValue(s) / 62 == NumeralValue(front) && NumeralValue(s) % 62 == d;
      assert s == front + [s[|s| - 1]];
    }
  }

  lemma {:induction false} QuotientFits(value: nat, length: nat)
    ensures length > 0 ==> (value < Power(62, length) <==> value / 62 < Power(62, length - 1))
  {
  }

  lemma NextDigit(value: nat, length: nat, tail: string)
    ensures value < Power(62, length + 1) <==> value / 62 < Power(62, length)
    ensures Numeral(value, length + 1) + tail == Numeral(value / 62, length) + ([Letter(value % 62)] + tail)
  {
    QuotientFits(value, length + 1);
  }

  /** The reference encoder: an error exactly for a value that has no numeral of that length. */
  method EncodeBase62Fixed(value: int, length: nat) returns (r: Result<string>)
    ensures r.Ok? <==> 0 <= value < Power(62, length)
    ensures r.Ok? ==> r.value == Numeral(value, length) && NumeralValue(r.value) == value
  {
    if value < 0 {
      return Err("value must be non-negative");
    }
    var remaining: nat := value;
    var characters := new char[length];
    var index: int := length - 1;
    while index >= 0
      invariant -1 <= index < length
      invariant Numeral(value, length) == Numeral(remaining, index + 1) + characters[index + 1..]
      invariant value < Power(62, length) <==> remaining < Power(62, index + 1)
    {
      ghost var tail := characters[index + 1..];
      NextDigit(remaining, index, tail);
      characters[index] := Letter(remaining % 62);
      assert characters[index..] == [Letter(remaining % 62)] + tail;
      remaining := remaining / 62;
      index := index - 1;
    }
    if remaining != 0 {
      return Err("value does not fit in the requested length");
    }
    PrintThenRead(value, length);
    assert characters[0..] == characters[..];
    return Ok(characters[..]);
  }
}
