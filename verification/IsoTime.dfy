/** The fixed-width UTC timestamp YYYY-MM-DDTHH:MM:SS.sssZ (a profile of RFC 3339, section 5.6):
    the printer of JavaScript's Date#toISOString for years 0000 to 9999, and the parser of
    cpp-redirect/src/core.hpp that is meant to undo it. */
module IsoTime {
  import opened Calendar
  import opened Numbers
  import opened Wrappers

  predicate AllDigits(s: string) {
    forall k :: 0 <= k < |s| ==> '0' <= s[k] <= '9'
  }

  function Padded(n: nat, width: nat): (s: string)
    ensures |s| == width && AllDigits(s)
  {
    if width == 0 then [] else Padded(n / 10, width - 1) + [DecimalDigit(n % 10)]
  }

  function DigitsValue(s: string): int {
    if s == [] then 0 else DigitsValue(s[..|s| - 1]) * 10 + (s[|s| - 1] as int - '0' as int)
  }

  lemma {:induction false} PaddedValue(n: nat, width: nat)
    requires n < Power(10, width)
    ensures DigitsValue(Padded(n, width)) == n
  {
    if width > 0 {
      PaddedValue(n / 10, width - 1);
      assert Padded(n, width)[..width - 1] == Padded(n / 10, width - 1);
    }
  }

  lemma {:induction false} ValuePadded(s: string)
    requires AllDigits(s)
    ensures 0 <= DigitsValue(s) < Power(10, |s|)
    ensures Padded(DigitsValue(s), |s|) == s
  {
    if s != [] {
      var front := s[..|s| - 1];
      ValuePadded(front);
      assert DigitsValue(s) / 10 == DigitsValue(front);
      assert s == front + [s[|s| - 1]];
    }
  }

  /** Character by character comparison. */
  predicate Less(a: string, b: string) {
    if b == [] then false
    else if a == [] then true
    else a[0] < b[0] || (a[0] == b[0] && Less(a[1..], b[1..]))
  }

  lemma {:induction false} LessConcat(a: string, b: string, x: string, y: string)
    requires |a| == |b|
    ensures Less(a + x, b + y) <==> Less(a, b) || (a == b && Less(x, y))
  {
    if a == [] {
      assert a + x == x && b + y == y;
    } else {
      assert (a + x)[1..] == a[1..] + x && (b + y)[1..] == b[1..] + y;
      assert a == [a[0]] + a[1..] && b == [b[0]] + b[1..];
      LessConcat(a[1..], b[1..], x, y);
    }
  }

  lemma {:induction false} PaddedOrders(m: nat, n: nat, width: nat)
    requires m < Power(10, width) && n < Power(10, width)
    ensures Less(Padded(m, width), Padded(n, width)) <==> m < n
    ensures Padded(m, width) == Padded(n, width) <==> m == n
  {
    PaddedValue(m, width);
    PaddedValue(n, width);
    if width > 0 {
      PaddedOrders(m / 10, n / 10, width - 1);
      LastDigitOrders(Padded(m / 10, width - 1), Padded(n / 10, width - 1), m % 10, n % 10);
      LastDigitDecides(m, n);
    }
  }

  lemma LastDigitOrders(a: string, b: string, d: nat, e: nat)
    requires |a| == |b| && d < 10 && e < 10
    ensures Less(a + [DecimalDigit(d)], b + [DecimalDigit(e)]) <==> Less(a, b) || (a == b && d < e)
  {
    LessConcat(a, b, [DecimalDigit(d)], [DecimalDigit(e)]);
    assert Less([DecimalDigit(d)], [DecimalDigit(e)]) <==> d < e;
  }

  lemma LastDigitDecides(m: nat, n: nat)
    ensures m < n <==> m / 10 < n / 10 || (m / 10 == n / 10 && m % 10 < n % 10)
  {
  }

  /** A point in time by its calendar fields. */
  datatype Instant = Instant(date: Date, hour: int, minute: int, second: int, milli: int)

  predicate IsTimeOfDay(i: Instant) {
    0 <= i.hour < 24 && 0 <= i.minute < 60 && 0 <= i.second < 60 && 0 <= i.milli < 1000
  }

  predicate IsInstant(i: Instant) {
    IsDate(i.date) && 0 <= i.date.year <= 9999 && IsTimeOfDay(i)
  }

  /** The time of day on the day with this number. */
  function EpochMillis(day: int, i: Instant): int {
    ((day * 24 + i.hour) * 60 + i.minute) * 60000 + i.second * 1000 + i.milli
  }

  function Millis(i: Instant): int
    requires IsDate(i.date)
  {
    EpochMillis(DayNumber(i.date), i)
  }

  const WIDTHS: seq<nat> := [4, 2, 2, 2, 2, 2, 3]
  const SEPARATORS: string := "--T::.Z"

  /** Where each field starts, and where the text ends. */
  const OFFSETS: seq<nat> := [0, 5, 8, 11, 14, 17, 20, 24]

  predicate Fits(fields: seq<nat>) {
    |fields| == 7 && forall k :: 0 <= k < 7 ==> fields[k] < Power(10, WIDTHS[k])
  }

  /** The text from field `k` on. */
  function Layout(fields: seq<nat>, k: nat): (s: string)
    requires |fields| == 7 && k <= 7
    decreases 7 - k, fields
  {
    if k == 7 then [] else Padded(fields[k], WIDTHS[k]) + ([SEPARATORS[k]] + Layout(fields, k + 1))
  }

  /** Fields that fit their widths; they need not be a real date and time. */
  predicate HasFields(i: Instant) {
    && 0 <= i.date.year < 10000 && 0 <= i.date.month < 100 && 0 <= i.date.day < 100
    && 0 <= i.hour < 100 && 0 <= i.minute < 100 && 0 <= i.second < 100 && 0 <= i.milli < 1000
  }

  function FieldsOf(i: Instant): seq<nat>
    requires HasFields(i)
  {
    [i.date.year, i.date.month, i.date.day, i.hour, i.minute, i.second, i.milli]
  }

  function Print(i: Instant): string
    requires HasFields(i)
  {
    Layout(FieldsOf(i), 0)
  }

  lemma FieldsFit(i: Instant)
    requires HasFields(i)
    ensures Fits(FieldsOf(i))
  {
    assert Power(10, 2) == 100 && Power(10, 3) == 1000 && Power(10, 4) == 10 * Power(10, 3);
  }

  lemma {:induction false} LayoutLength(fields: seq<nat>, k: nat)
    requires |fields| == 7 && k <= 7
    ensures |Layout(fields, k)| == 24 - OFFSETS[k]
    decreases 7 - k
  {
    if k < 7 {
      LayoutLength(fields, k + 1);
    }
  }

  lemma {:induction false} LayoutSuffix(fields: seq<nat>, k: nat)
    requires |fields| == 7 && k <= 7
    ensures |Layout(fields, 0)| == 24
    ensures Layout(fields, 0)[OFFSETS[k]..] == Layout(fields, k)
  {
    LayoutLength(fields, 0);
    LayoutLength(fields, k);
    if k > 0 {
      LayoutSuffix(fields, k - 1);
      OffsetStep(k - 1);
      SuffixOfSuffix(Layout(fields, 0), OFFSETS[k - 1], Padded(fields[k - 1], WIDTHS[k - 1]), SEPARATORS[k - 1],
                     Layout(fields, k));
    }
  }

  lemma OffsetStep(k: nat)
    requires k < 7
    ensures OFFSETS[k + 1] == OFFSETS[k] + WIDTHS[k] + 1 <= 24
  {
  }

  lemma SuffixOfSuffix(s: string, o: nat, p: string, c: char, t: string)
    requires o + |p| + 1 <= |s| && s[o..] == p + ([c] + t)
    ensures s[o + |p| + 1..] == t
  {
    assert s[o + |p| + 1..] == s[o..][|p| + 1..];
  }

  /** What stands at field `k` of a text, and the separator after it. */
  function FieldText(s: string, k: nat): string
    requires |s| == 24 && k < 7
  {
    s[OFFSETS[k]..OFFSETS[k + 1] - 1]
  }

  function SeparatorAfter(s: string, k: nat): char
    requires |s| == 24 && k < 7
  {
    s[OFFSETS[k + 1] - 1]
  }

  lemma Pieces(s: string, o: nat, w: nat)
    requires o + w < |s|
    ensures s[o..] == s[o..o + w] + ([s[o + w]] + s[o + w + 1..])
  {
  }

  lemma PiecesOfSuffix(s: string, o: nat, p: string, c: char, t: string)
    requires o <= |s| && s[o..] == p + ([c] + t)
    ensures o + |p| < |s| && s[o..o + |p|] == p && s[o + |p|] == c
  {
    assert s[o..o + |p|] == s[o..][..|p|];
    assert s[o + |p|] == s[o..][|p|];
  }

  lemma LayoutField(fields: seq<nat>, k: nat)
    requires |fields| == 7 && k < 7
    ensures |Layout(fields, 0)| == 24
    ensures FieldText(Layout(fields, 0), k) == Padded(fields[k], WIDTHS[k])
    ensures SeparatorAfter(Layout(fields, 0), k) == SEPARATORS[k]
  {
    LayoutSuffix(fields, k);
    OffsetStep(k);
    PiecesOfSuffix(Layout(fields, 0), OFFSETS[k], Padded(fields[k], WIDTHS[k]), SEPARATORS[k], Layout(fields, k + 1));
  }

  /** A 24-character text with the separators and digits in place is the layout of its fields. */
  lemma {:induction false} TextIsLayout(s: string, fields: seq<nat>, k: nat)
    requires |s| == 24 && |fields| == 7 && k <= 7
    requires forall j :: 0 <= j < 7 ==> FieldText(s, j) == Padded(fields[j], WIDTHS[j])
    requires forall j :: 0 <= j < 7 ==> SeparatorAfter(s, j) == SEPARATORS[j]
    ensures s[OFFSETS[k]..] == Layout(fields, k)
    decreases 7 - k
  {
    if k < 7 {
      TextIsLayout(s, fields, k + 1);
      OffsetStep(k);
      Pieces(s, OFFSETS[k], WIDTHS[k]);
    }
  }

  function Number(s: string, pos: nat, len: nat): int
    requires pos + len <= |s|
  {
    DigitsValue(s[pos..pos + len])
  }

  /** Separators in place and digits everywhere else. */
  predicate Shaped(s: string) {
    && |s| == 24
    && s[4] == '-' && s[7] == '-' && s[10] == 'T' && s[13] == ':' && s[16] == ':' && s[19] == '.' && s[23] == 'Z'
    && AllDigits(s[0..4]) && AllDigits(s[5..7]) && AllDigits(s[8..10]) && AllDigits(s[11..13])
    && AllDigits(s[14..16]) && AllDigits(s[17..19]) && AllDigits(s[20..23])
  }

  /** What the fields of a text say; they need not be a real date and time. */
  function Reading(s: string): Instant
    requires |s| == 24
  {
    Instant(Date(Number(s, 0, 4), Number(s, 5, 2), Number(s, 8, 2)),
            Number(s, 11, 2), Number(s, 14, 2), Number(s, 17, 2), Number(s, 20, 3))
  }

  /** The range checks of the parser: they know neither month lengths nor leap years, and they
      let second 60 through. */
  predicate InRange(i: Instant) {
    1 <= i.date.month <= 12 && 1 <= i.date.day <= 31 && i.hour <= 23 && i.minute <= 59 && i.second <= 60
  }

  function ParseIso(s: string): Option<int> {
    if Shaped(s) && InRange(Reading(s)) then
      var i := Reading(s);
      Some(EpochMillis(DaysFromCivil(i.date.year, i.date.month, i.date.day), i))
    else None
  }

  lemma NumberStep(front: string, c: char)
    ensures DigitsValue(front + [c]) == DigitsValue(front) * 10 + (c as int - '0' as int)
    ensures AllDigits(front + [c]) <==> AllDigits(front) && '0' <= c <= '9'
  {
    assert (front + [c])[..|front|] == front;
    assert forall k :: 0 <= k < |front| ==> (front + [c])[k] == front[k];
    assert (front + [c])[|front|] == c;
  }

  lemma NumberGrows(s: string, pos: nat, i: nat)
    requires pos <= i < |s|
    ensures DigitsValue(s[pos..i + 1]) == DigitsValue(s[pos..i]) * 10 + (s[i] as int - '0' as int)
    ensures AllDigits(s[pos..i + 1]) <==> AllDigits(s[pos..i]) && '0' <= s[i] <= '9'
  {
    assert s[pos..i + 1] == s[pos..i] + [s[i]];
    NumberStep(s[pos..i], s[i]);
  }

  method Num(s: string, pos: nat, len: nat, ok: bool) returns (value: int, ok': bool)
    requires pos + len <= |s|
    ensures value == Number(s, pos, len)
    ensures ok' <==> ok && AllDigits(s[pos..pos + len])
  {
    value, ok' := 0, ok;
    for i := pos to pos + len
      invariant value == DigitsValue(s[pos..i])
      invariant ok' <==> ok && AllDigits(s[pos..i])
    {
      NumberGrows(s, pos, i);
      if s[i] < '0' || s[i] > '9' {
        ok' := false;
      }
      value := value * 10 + (s[i] as int - '0' as int);
    }
  }

  method ReadFields(s: string) returns (i: Instant, ok: bool)
    requires |s| == 24
    ensures i == Reading(s)
    ensures ok <==> AllDigits(s[0..4]) && AllDigits(s[5..7]) && AllDigits(s[8..10]) && AllDigits(s[11..13])
                    && AllDigits(s[14..16]) && AllDigits(s[17..19]) && AllDigits(s[20..23])
  {
    ok := true;
    var year, month, day, hour, minute, second, millis;
    year, ok := Num(s, 0, 4, ok);
    month, ok := Num(s, 5, 2, ok);
    day, ok := Num(s, 8, 2, ok);
    hour, ok := Num(s, 11, 2, ok);
    minute, ok := Num(s, 14, 2, ok);
    second, ok := Num(s, 17, 2, ok);
    millis, ok := Num(s, 20, 3, ok);
    i := Instant(Date(year, month, day), hour, minute, second, millis);
  }

  method ParseIsoUtcMillis(s: string) returns (r: Option<int>)
    ensures r == ParseIso(s)
  {
    if |s| != 24 || s[4] != '-' || s[7] != '-' || s[10] != 'T' || s[13] != ':' || s[16] != ':'
       || s[19] != '.' || s[23] != 'Z' {
      return None;
    }
    var i, ok := ReadFields(s);
    var year, month, day := i.date.year, i.date.month, i.date.day;
    if !ok || month < 1 || month > 12 || day < 1 || day > 31 || i.hour > 23 || i.minute > 59 || i.second > 60 {
      return None;
    }
    var days := DaysFromCivil(year, month, day);
    return Some(((days * 24 + i.hour) * 60 + i.minute) * 60000 + i.second * 1000 + i.milli);
  }

  /** Printed fields have the right shape and read as themselves. */
  lemma ReadPrinted(i: Instant)
    requires HasFields(i)
    ensures Shaped(Print(i)) && Reading(Print(i)) == i
  {
    FieldsFit(i);
    var s, fields := Print(i), FieldsOf(i);
    forall k | 0 <= k < 7
      ensures |s| == 24 && AllDigits(FieldText(s, k)) && SeparatorAfter(s, k) == SEPARATORS[k]
      ensures DigitsValue(FieldText(s, k)) == fields[k]
    {
      LayoutField(fields, k);
      PaddedValue(fields[k], WIDTHS[k]);
    }
    FieldPositions(s);
  }

  lemma FieldPositions(s: string)
    requires |s| == 24
    ensures FieldText(s, 0) == s[0..4] && FieldText(s, 1) == s[5..7] && FieldText(s, 2) == s[8..10]
    ensures FieldText(s, 3) == s[11..13] && FieldText(s, 4) == s[14..16] && FieldText(s, 5) == s[17..19]
    ensures FieldText(s, 6) == s[20..23]
    ensures SeparatorAfter(s, 0) == s[4] && SeparatorAfter(s, 1) == s[7] && SeparatorAfter(s, 2) == s[10]
    ensures SeparatorAfter(s, 3) == s[13] && SeparatorAfter(s, 4) == s[16] && SeparatorAfter(s, 5) == s[19]
    ensures SeparatorAfter(s, 6) == s[23]
  {
  }

  /** The parser reads every printed instant as its epoch milliseconds. */
  lemma ParsePrinted(i: Instant)
    requires IsInstant(i)
    ensures ParseIso(Print(i)) == Some(Millis(i))
  {
    ReadPrinted(i);
    ParseReads(Print(i), i);
    DaysFromCivilCounts(i.date);
  }

  lemma ParseReads(s: string, i: Instant)
    requires Shaped(s) && Reading(s) == i && InRange(i)
    ensures ParseIso(s) == Some(EpochMillis(DaysFromCivil(i.date.year, i.date.month, i.date.day), i))
  {
  }

  lemma ShapedReading(s: string)
    requires Shaped(s)
    ensures HasFields(Reading(s))
  {
    assert Power(10, 2) == 100 && Power(10, 3) == 1000 && Power(10, 4) == 10 * Power(10, 3);
    ValuePadded(s[0..4]);
    ValuePadded(s[5..7]);
    ValuePadded(s[8..10]);
    ValuePadded(s[11..13]);
    ValuePadded(s[14..16]);
    ValuePadded(s[17..19]);
    ValuePadded(s[20..23]);
  }

  /** A shaped text is its own fields, printed. */
  lemma ShapedIsPrinted(s: string)
    requires Shaped(s) && HasFields(Reading(s))
    ensures Print(Reading(s)) == s
  {
    var fields := FieldsOf(Reading(s));
    FieldPositions(s);
    forall j | 0 <= j < 7
      ensures FieldText(s, j) == Padded(fields[j], WIDTHS[j])
      ensures SeparatorAfter(s, j) == SEPARATORS[j]
    {
      assert AllDigits(FieldText(s, j)) && fields[j] == DigitsValue(FieldText(s, j));
      assert |FieldText(s, j)| == WIDTHS[j];
      ValuePadded(FieldText(s, j));
    }
    TextIsLayout(s, fields, 0);
  }

  /** Printed fields are accepted exactly when each is in its range, whether or not there is such a
      day or second. */
  lemma PrintedIsAcceptedExactlyWhenInRange(i: Instant)
    requires HasFields(i)
    ensures ParseIso(Print(i)).Some?
       <==> 1 <= i.date.month <= 12 && 1 <= i.date.day <= 31 && i.hour <= 23 && i.minute <= 59 && i.second <= 60
    ensures ParseIso(Print(i)).Some? ==>
              ParseIso(Print(i)).value == DaysFromCivil(i.date.year, i.date.month, i.date.day) * 86400000
                                          + i.hour * 3600000 + i.minute * 60000 + i.second * 1000 + i.milli
  {
    ReadPrinted(i);
  }

  /** The accepted texts are exactly the printed fields in range. */
  lemma AcceptedTexts(s: string)
    ensures ParseIso(s).Some?
       <==> exists i :: && HasFields(i) && Print(i) == s && 1 <= i.date.month <= 12 && 1 <= i.date.day <= 31
                        && i.hour <= 23 && i.minute <= 59 && i.second <= 60
  {
    if ParseIso(s).Some? {
      ShapedReading(s);
      ShapedIsPrinted(s);
    }
    forall i | HasFields(i) && InRange(i) && Print(i) == s
      ensures ParseIso(s).Some?
    {
      PrintedIsAcceptedExactlyWhenInRange(i);
    }
  }

  lemma PrintedIsReading(i: Instant, s: string)
    requires HasFields(i) && Print(i) == s
    ensures |s| == 24 && Reading(s) == i
  {
    ReadPrinted(i);
  }

  /** An accepted text is the printed form of some instant exactly when its day exists in its
      month and its second is not 60. */
  lemma AcceptedIsPrintedExactlyWhenReal(s: string)
    requires ParseIso(s).Some?
    ensures (exists i :: IsInstant(i) && Print(i) == s) <==> IsDate(Reading(s).date) && Reading(s).second < 60
  {
    ShapedReading(s);
    ShapedIsPrinted(s);
    var r := Reading(s);
    assert IsInstant(r) <==> IsDate(r.date) && r.second < 60;
    forall i | IsInstant(i) && Print(i) == s
      ensures r == i
    {
      PrintedIsReading(i, s);
    }
  }

  /** What no instant is printed as. */
  ghost predicate PrintedByNone(s: string) {
    forall i :: IsInstant(i) ==> Print(i) != s
  }

  /** In-range fields that are no real time are accepted, but printed by no instant. */
  lemma UnrealIsAccepted(i: Instant)
    requires HasFields(i) && InRange(i) && (!IsDate(i.date) || i.second == 60)
    ensures ParseIso(Print(i)) == Some(EpochMillis(DaysFromCivil(i.date.year, i.date.month, i.date.day), i))
    ensures PrintedByNone(Print(i))
  {
    PrintedIsAcceptedExactlyWhenInRange(i);
    AcceptedIsPrintedExactlyWhenReal(Print(i));
    PrintedIsReading(i, Print(i));
  }

  /** Every day up to 31 that its month does not have is accepted, and read as a day of the next
      month. */
  lemma MissingDaysAreAccepted(i: Instant, next: Instant)
    requires HasFields(i) && 1 <= i.date.month <= 12 && DaysInMonth(i.date.year, i.date.month) < i.date.day <= 31
    requires i.hour <= 23 && i.minute <= 59 && i.second <= 59
    requires next == i.(date := Date(i.date.year, i.date.month + 1,
                                     i.date.day - DaysInMonth(i.date.year, i.date.month)))
    ensures IsInstant(next) && ParseIso(Print(i)) == Some(Millis(next)) && PrintedByNone(Print(i))
  {
    MissingDayReads(i, next);
    UnrealIsAccepted(i);
  }

  lemma MissingDayReads(i: Instant, next: Instant)
    requires HasFields(i) && InRange(i) && i.second < 60 && i.date.day > DaysInMonth(i.date.year, i.date.month)
    requires next == i.(date := Date(i.date.year, i.date.month + 1,
                                     i.date.day - DaysInMonth(i.date.year, i.date.month)))
    ensures IsInstant(next) && !IsDate(i.date)
    ensures EpochMillis(DaysFromCivil(i.date.year, i.date.month, i.date.day), i) == Millis(next)
  {
    MissingDayIsLaterDay(i.date, next.date);
  }

  /** Second 60 of every minute is accepted, and read as one second after second 59. */
  lemma SecondSixtyIsAccepted(i: Instant, before: Instant)
    requires HasFields(i) && IsDate(i.date) && i.hour <= 23 && i.minute <= 59 && i.second == 60
    requires before == i.(second := 59)
    ensures IsInstant(before) && ParseIso(Print(i)) == Some(Millis(before) + 1000) && PrintedByNone(Print(i))
  {
    UnrealIsAccepted(i);
    OneSecondLater(i, before);
  }

  lemma OneSecondLater(i: Instant, before: Instant)
    requires IsDate(i.date) && i.second == 60 && before == i.(second := 59)
    ensures EpochMillis(DaysFromCivil(i.date.year, i.date.month, i.date.day), i) == Millis(before) + 1000
  {
    DaysFromCivilCounts(i.date);
  }

  predicate DigitAt(s: string, p: nat) {
    p < |s| && '0' <= s[p] <= '9'
  }

  lemma TwoDigits(s: string, p: nat)
    requires DigitAt(s, p) && DigitAt(s, p + 1)
    ensures AllDigits(s[p..p + 2])
    ensures Number(s, p, 2) == (s[p] as int - '0' as int) * 10 + (s[p + 1] as int - '0' as int)
  {
    NumberGrows(s, p, p);
    NumberGrows(s, p, p + 1);
    assert s[p..p] == [];
  }

  /** The number that two characters of a text show. */
  function Pair(s: string, p: nat): int
    requires p + 1 < |s|
  {
    (s[p] as int - '0' as int) * 10 + (s[p + 1] as int - '0' as int)
  }

  lemma DigitsIn(s: string, a: nat, b: nat)
    requires a <= b <= |s| && forall p :: a <= p < b ==> DigitAt(s, p)
    ensures AllDigits(s[a..b])
  {
    assert forall k :: 0 <= k < b - a ==> s[a..b][k] == s[a + k] && DigitAt(s, a + k);
  }

  lemma NumberFromFront(s: string, p: nat, q: nat)
    requires p <= q && DigitAt(s, q)
    ensures Number(s, p, q - p + 1) == Number(s, p, q - p) * 10 + (s[q] as int - '0' as int)
  {
    NumberGrows(s, p, q);
  }

  lemma ThreeDigits(s: string, p: nat)
    requires DigitAt(s, p) && DigitAt(s, p + 1) && DigitAt(s, p + 2)
    ensures Number(s, p, 3) == Pair(s, p) * 10 + (s[p + 2] as int - '0' as int)
  {
    TwoDigits(s, p);
    NumberFromFront(s, p, p + 2);
  }

  lemma FourDigits(s: string, p: nat)
    requires DigitAt(s, p) && DigitAt(s, p + 1) && DigitAt(s, p + 2) && DigitAt(s, p + 3)
    ensures Number(s, p, 4) == Pair(s, p) * 100 + Pair(s, p + 2)
  {
    ThreeDigits(s, p);
    NumberFromFront(s, p, p + 3);
  }

  lemma ShapedByCharacters(s: string)
    requires InShape(s)
    ensures Shaped(s)
  {
    DigitsIn(s, 0, 4);
    DigitsIn(s, 5, 7);
    DigitsIn(s, 8, 10);
    DigitsIn(s, 11, 13);
    DigitsIn(s, 14, 16);
    DigitsIn(s, 17, 19);
    DigitsIn(s, 20, 23);
  }

  lemma ReadsByCharacters(s: string)
    requires InShape(s)
    ensures Reading(s) == Instant(Date(Pair(s, 0) * 100 + Pair(s, 2), Pair(s, 5), Pair(s, 8)), Pair(s, 11), Pair(s, 14),
                                  Pair(s, 17), Pair(s, 20) * 10 + (s[22] as int - '0' as int))
  {
    FourDigits(s, 0);
    TwoDigits(s, 5);
    TwoDigits(s, 8);
    TwoDigits(s, 11);
    TwoDigits(s, 14);
    TwoDigits(s, 17);
    ThreeDigits(s, 20);
  }

  lemma AcceptedByCharacters(s: string)
    requires InShape(s)
    ensures ParseIso(s).Some? && Reading(s).date.month == Pair(s, 5) && Reading(s).date.day == Pair(s, 8)
    ensures Reading(s).second == Pair(s, 17)
    ensures ParseIso(s).value
         == DaysFromCivil(Pair(s, 0) * 100 + Pair(s, 2), Pair(s, 5), Pair(s, 8)) * 86400000 + Pair(s, 11) * 3600000
            + Pair(s, 14) * 60000 + Pair(s, 17) * 1000 + Pair(s, 20) * 10 + (s[22] as int - '0' as int)
  {
    ShapedByCharacters(s);
    ReadsByCharacters(s);
    ParseReads(s, Reading(s));
  }

  predicate InShape(s: string) {
    && |s| == 24 && s[4] == '-' && s[7] == '-' && s[10] == 'T' && s[13] == ':' && s[16] == ':' && s[19] == '.'
    && s[23] == 'Z'
    && DigitAt(s, 0) && DigitAt(s, 1) && DigitAt(s, 2) && DigitAt(s, 3) && DigitAt(s, 5) && DigitAt(s, 6)
    && DigitAt(s, 8) && DigitAt(s, 9) && DigitAt(s, 11) && DigitAt(s, 12) && DigitAt(s, 14) && DigitAt(s, 15)
    && DigitAt(s, 17) && DigitAt(s, 18) && DigitAt(s, 20) && DigitAt(s, 21) && DigitAt(s, 22)
    && 1 <= Pair(s, 5) <= 12 && 1 <= Pair(s, 8) <= 31
    && Pair(s, 11) <= 23 && Pair(s, 14) <= 59 && Pair(s, 17) <= 60
  }

  lemma ParsesAs(s: string, year: int, month: int, day: int, days: int, rest: int)
    requires InShape(s) && year == Pair(s, 0) * 100 + Pair(s, 2) && month == Pair(s, 5) && day == Pair(s, 8)
    requires days == DaysFromCivil(year, month, day)
    requires rest == Pair(s, 11) * 3600000 + Pair(s, 14) * 60000 + Pair(s, 17) * 1000
                     + Pair(s, 20) * 10 + (s[22] as int - '0' as int)
    ensures ParseIso(s) == Some(days * 86400000 + rest)
  {
    AcceptedByCharacters(s);
  }

  lemma DayIs(year: int, month: int, day: int, y: int, days: int)
    requires 1 <= month <= 12 && 1 <= day <= 31 && y == if month <= 2 then year - 1 else year
    requires days == 365 * y + y / 4 - y / 100 + y / 400
                     + (153 * (if month > 2 then month - 3 else month + 9) + 2) / 5 + day - 1 - 719468
    ensures DaysFromCivil(year, month, day) == days
  {
    NoWrapAround(year, month, day);
  }

  /** The instants that the tests of the C++ service name. */
  lemma ParsesEpoch(s: string)
    requires s == "1970-01-01T00:00:00.000Z"
    ensures ParseIso(s) == Some(0)
  {
    DayIs(1970, 1, 1, 1969, 0);
    ParsesAs(s, 1970, 1, 1, 0, 0);
  }

  lemma ParsesMidnight(s: string)
    requires s == "2026-09-22T00:00:00.000Z"
    ensures ParseIso(s) == Some(1790035200000)
  {
    DayIs(2026, 9, 22, 2026, 20718);
    ParsesAs(s, 2026, 9, 22, 20718, 0);
  }

  lemma ParsesLeapDay(s: string)
    requires s == "2000-02-29T12:34:56.789Z"
    ensures ParseIso(s) == Some(951827696789)
  {
    DayIs(2000, 2, 29, 1999, 11016);
    ParsesAs(s, 2000, 2, 29, 11016, 45296789);
  }

  lemma ParsesLastOfCentury(s: string)
    requires s == "1999-12-31T23:59:59.999Z"
    ensures ParseIso(s) == Some(946684799999)
  {
    DayIs(1999, 12, 31, 1999, 10956);
    ParsesAs(s, 1999, 12, 31, 10956, 86399999);
  }

  /** And the texts they name that are none. */
  lemma RefusesOtherTexts()
    ensures ParseIso("") == None && ParseIso("2026-09-22 00:00:00") == None
    ensures ParseIso("2026-13-01T00:00:00.000Z") == None && ParseIso("2026-09-2xT00:00:00.000Z") == None
  {
    RefusesMonth("2026-13-01T00:00:00.000Z");
    var s := "2026-09-2xT00:00:00.000Z";
    assert s[8..10][1] == 'x';
  }

  lemma RefusesMonth(s: string)
    requires |s| == 24 && DigitAt(s, 5) && DigitAt(s, 6) && Pair(s, 5) > 12
    ensures ParseIso(s) == None
  {
    TwoDigits(s, 5);
  }

  /** For one: this text is accepted although no instant is printed as it. */
  lemma AcceptsFebruary31(s: string)
    requires s == "2023-02-31T00:00:00.000Z"
    ensures ParseIso(s).Some? && PrintedByNone(s)
  {
    AcceptedByCharacters(s);
    UnrealTextIsPrintedByNone(s);
  }

  lemma UnrealTextIsPrintedByNone(s: string)
    requires ParseIso(s).Some?
    requires Reading(s).second == 60 || (Reading(s).date.month == 2 && Reading(s).date.day > 29)
    ensures PrintedByNone(s)
  {
    AcceptedIsPrintedExactlyWhenReal(s);
  }

  /** And so is this one. */
  lemma AcceptsSecondSixty(s: string)
    requires s == "2016-12-31T23:59:60.000Z"
    ensures ParseIso(s).Some? && PrintedByNone(s)
  {
    AcceptedByCharacters(s);
    UnrealTextIsPrintedByNone(s);
  }

  /** The range of instants with four-digit years. */
  const FIRST_MILLIS: int := -62167219200000
  const END_MILLIS: int := 253402300800000
  const FIRST_DAY: int := -719528
  const FIRST_YEAR: int := 0
  const MILLIS_PER_DAY: int := 86400000

  /** The date `n` days after the first of January of a year, found by walking the calendar. */
  function CivilOfDay(year: int, n: nat): (t: Date)
    ensures IsDate(t) && t.year >= year
  {
    if n == 0 then Date(year, 1, 1) else NextDate(CivilOfDay(year, n - 1))
  }

  lemma {:induction false} CivilOfDayCounts(year: int, n: nat)
    ensures DayNumber(CivilOfDay(year, n)) == YearStart(year) + n
  {
    if n > 0 {
      CivilOfDayCounts(year, n - 1);
      NextDayNumber(CivilOfDay(year, n - 1));
    }
  }

  /** Every number, negative ones too, is the day number of a date. */
  lemma EveryDayNumberIsReached(day: int) returns (t: Date)
    ensures IsDate(t) && DayNumber(t) == day
  {
    var year := if day >= 0 then 1970 else 1970 + day;
    YearsGrow(year, 1970);
    t := CivilOfDay(year, day - YearStart(year));
    CivilOfDayCounts(year, day - YearStart(year));
  }

  lemma CivilOfDayYear(year: int, n: nat, end: Date)
    requires end == Date(10000, 1, 1) && YearStart(year) + n < 2932897
    ensures CivilOfDay(year, n).year <= 9999
  {
    CivilOfDayCounts(year, n);
    EndOfFourDigitYears(end.year);
    var t := CivilOfDay(year, n);
    if Before(end, t) {
      EarlierIsLess(end, t);
    }
  }

  function TimeOfDay(date: Date, rest: int): (i: Instant)
    requires 0 <= rest < MILLIS_PER_DAY
    ensures i.date == date && IsTimeOfDay(i)
    ensures ((i.hour * 60 + i.minute) * 60 + i.second) * 1000 + i.milli == rest
  {
    var minutes := rest / 60000;
    Instant(date, minutes / 60, minutes % 60, rest / 1000 % 60, rest % 1000)
  }

  function InstantOf(ms: int): (i: Instant)
    requires FIRST_MILLIS <= ms < END_MILLIS
    ensures IsInstant(i)
  {
    var day := ms / MILLIS_PER_DAY - FIRST_DAY;
    FirstFourDigitYear(FIRST_YEAR);
    CivilOfDayYear(FIRST_YEAR, day, Date(10000, 1, 1));
    TimeOfDay(CivilOfDay(FIRST_YEAR, day), ms % MILLIS_PER_DAY)
  }

  function ToIso(ms: int): string
    requires FIRST_MILLIS <= ms < END_MILLIS
  {
    Print(InstantOf(ms))
  }

  lemma InstantOfMillis(ms: int)
    requires FIRST_MILLIS <= ms < END_MILLIS
    ensures Millis(InstantOf(ms)) == ms
  {
    FirstFourDigitYear(FIRST_YEAR);
    CivilOfDayCounts(FIRST_YEAR, ms / MILLIS_PER_DAY - FIRST_DAY);
  }

  /** Every millisecond of the years 0000 to 9999 survives printing and parsing. */
  lemma RoundTrip(ms: int)
    requires FIRST_MILLIS <= ms < END_MILLIS
    ensures |ToIso(ms)| == 24 && ParseIso(ToIso(ms)) == Some(ms)
  {
    InstantOfMillis(ms);
    ParsePrinted(InstantOf(ms));
  }

  /** Lexicographic order of the first differing field. */
  predicate FieldsLess(a: seq<nat>, b: seq<nat>, k: nat)
    requires |a| == |b| == 7 && k <= 7
    decreases 7 - k
  {
    k < 7 && (a[k] < b[k] || (a[k] == b[k] && FieldsLess(a, b, k + 1)))
  }

  lemma {:induction false} LayoutOrders(a: seq<nat>, b: seq<nat>, k: nat)
    requires Fits(a) && Fits(b) && k <= 7
    ensures Less(Layout(a, k), Layout(b, k)) <==> FieldsLess(a, b, k)
    decreases 7 - k
  {
    if k < 7 {
      PaddedOrders(a[k], b[k], WIDTHS[k]);
      var x, y := Layout(a, k + 1), Layout(b, k + 1);
      LessConcat(Padded(a[k], WIDTHS[k]), Padded(b[k], WIDTHS[k]), [SEPARATORS[k]] + x, [SEPARATORS[k]] + y);
      LessConcat([SEPARATORS[k]], [SEPARATORS[k]], x, y);
      LayoutOrders(a, b, k + 1);
    }
  }

  /** A later day outweighs any time of day. */
  lemma FieldsOrderMillis(i: Instant, j: Instant)
    requires IsInstant(i) && IsInstant(j)
    ensures FieldsLess(FieldsOf(i), FieldsOf(j), 0) <==> Millis(i) < Millis(j)
  {
    DaysFromCivilCounts(i.date);
    DaysFromCivilCounts(j.date);
    DaysFromCivilOrders(i.date, j.date);
    DaysFromCivilOrders(j.date, i.date);
    var a, b := FieldsOf(i), FieldsOf(j);
    assert FieldsLess(a, b, 3) <==>
        (i.hour < j.hour || (i.hour == j.hour && (i.minute < j.minute || (i.minute == j.minute &&
        (i.second < j.second || (i.second == j.second && i.milli < j.milli)))))) by {
      assert FieldsLess(a, b, 5) <==> i.second < j.second || (i.second == j.second && i.milli < j.milli);
    }
    assert FieldsLess(a, b, 0) <==> Before(i.date, j.date) || (i.date == j.date && FieldsLess(a, b, 3));
  }

  /** Comparing printed timestamps as strings compares the instants. */
  lemma TextOrderIsTimeOrder(m: int, n: int)
    requires FIRST_MILLIS <= m < END_MILLIS && FIRST_MILLIS <= n < END_MILLIS
    ensures Less(ToIso(m), ToIso(n)) <==> m < n
  {
    var i, j := InstantOf(m), InstantOf(n);
    InstantOfMillis(m);
    InstantOfMillis(n);
    FieldsFit(i);
    FieldsFit(j);
    LayoutOrders(FieldsOf(i), FieldsOf(j), 0);
    FieldsOrderMillis(i, j);
  }
}
