/** Version 6 identifiers and their timestamps: packages/common/src/system/guid-generator.ts. The layout is that of
    section 5.6 of RFC 9562: the sixty bits of the tick count in order of significance, with the version in between. */
module Guids {
  import opened Common
  import opened Ordering

  // ----- hexadecimal digits -----

  predicate IsHex(c: char) { '0' <= c <= '9' || 'a' <= c <= 'f' || 'A' <= c <= 'F' }

  predicate AllHex(s: string) { forall c :: c in s ==> IsHex(c) }

  predicate LowerCase(s: string) { forall c :: c in s ==> !('A' <= c <= 'F') }

  function HexValue(c: char): (v: nat)
    requires IsHex(c)
    ensures v < 16
  {
    if c <= '9' then c as nat - '0' as nat else if c <= 'F' then c as nat - 'A' as nat + 10 else c as nat - 'a' as nat + 10
  }

  function Digit(v: nat): (c: char)
    requires v < 16
    ensures IsHex(c) && HexValue(c) == v && !('A' <= c <= 'F')
  {
    if v < 10 then (v + '0' as nat) as char else (v - 10 + 'a' as nat) as char
  }

  function Power(digits: nat): (p: nat)
    ensures p > 0
  {
    if digits == 0 then 1 else 16 * Power(digits - 1)
  }

  function FromHex(s: string): (n: nat)
    requires AllHex(s)
  {
    if s == "" then 0 else HexValue(s[0]) * Power(|s| - 1) + FromHex(s[1..])
  }

  function ToHex(n: nat, digits: nat): (s: string)
    requires n < Power(digits)
    decreases digits
  {
    if digits == 0 then ""
    else
      assert n / Power(digits - 1) < 16 by { QuotientBound(n, Power(digits - 1)); }
      [Digit(n / Power(digits - 1))] + ToHex(n % Power(digits - 1), digits - 1)
  }

  lemma QuotientBound(n: nat, p: nat)
    requires 0 < p && n < 16 * p
    ensures n / p < 16 && n == (n / p) * p + n % p
  {
    assert (n / p) * p <= n;
    if n / p >= 16 { ProductGrows(n / p, 16, p); }
  }

  lemma ProductGrows(a: nat, b: nat, p: nat)
    requires a >= b
    ensures a * p >= b * p
  {
    assert a * p == b * p + (a - b) * p;
  }

  lemma {:induction false} HexBound(s: string)
    requires AllHex(s)
    ensures FromHex(s) < Power(|s|)
  {
    if s != "" {
      HexBound(s[1..]);
      ProductGrows(15, HexValue(s[0]), Power(|s| - 1));
    }
  }

  lemma {:induction false} HexRoundTrip(n: nat, digits: nat)
    requires n < Power(digits)
    ensures var s := ToHex(n, digits); |s| == digits && AllHex(s) && LowerCase(s) && FromHex(s) == n
  {
    hide HexValue, IsHex, FromHex, LowerCase, AllHex, Digit;
    if digits == 0 {
      NoDigits();
    } else {
      var p := Power(digits - 1);
      QuotientBound(n, p);
      HexRoundTrip(n % p, digits - 1);
      DigitFirst(n / p, ToHex(n % p, digits - 1));
    }
  }

  lemma NoDigits()
    ensures AllHex("") && LowerCase("") && FromHex("") == 0
  {}

  lemma DigitFirst(v: nat, rest: string)
    requires v < 16 && AllHex(rest) && LowerCase(rest)
    ensures var s := [Digit(v)] + rest;
      AllHex(s) && LowerCase(s) && FromHex(s) == v * Power(|rest|) + FromHex(rest)
  {
    var s := [Digit(v)] + rest;
    assert s[1..] == rest;
  }

  function Digits(s: string): set<char> { set c | c in s }

  /** No capital letter stands for as much as a small letter, or for more. */
  predicate OrderSafe(alphabet: set<char>) {
    forall c, d :: c in alphabet && d in alphabet && 'A' <= c <= 'F' && 'a' <= d <= 'f' ==> HexValue(c) < HexValue(d)
  }

  /** Over such an alphabet the order of the characters is that of their values. */
  lemma SafeCharacters(alphabet: set<char>, c: char, d: char)
    requires OrderSafe(alphabet) && c in alphabet && d in alphabet && IsHex(c) && IsHex(d)
    ensures c < d <==> HexValue(c) < HexValue(d)
  {}

  /** Then, among digit strings of one length, the order of the text is the order of the numbers. */
  lemma {:induction false} HexOrder(a: string, b: string, alphabet: set<char>)
    requires |a| == |b| && AllHex(a) && AllHex(b)
    requires OrderSafe(alphabet) && Digits(a) <= alphabet && Digits(b) <= alphabet
    ensures CompareText(a, b) == Sign(FromHex(a) - FromHex(b))
  {
    if a != "" {
      hide OrderSafe, IsHex, HexValue;
      assert a[0] in Digits(a) && b[0] in Digits(b) && a[0] in a && b[0] in b;
      SafeCharacters(alphabet, a[0], b[0]);
      SafeCharacters(alphabet, b[0], a[0]);
      HexBound(a[1..]);
      HexBound(b[1..]);
      assert (forall c :: c in a[1..] ==> c in Digits(a)) && (forall c :: c in b[1..] ==> c in Digits(b));
      HexOrder(a[1..], b[1..], alphabet);
      FirstDigitDecides(HexValue(a[0]), FromHex(a[1..]), HexValue(b[0]), FromHex(b[1..]), Power(|a| - 1));
    }
  }

  lemma FirstDigitDecides(a: nat, x: nat, b: nat, y: nat, p: nat)
    requires x < p && y < p
    ensures Sign((a * p + x) - (b * p + y)) == if a < b then -1 else if a > b then 1 else Sign(x - y)
  {
    if a < b {
      ProductGrows(b, a + 1, p);
      assert (a + 1) * p == a * p + p;
    } else if a > b {
      ProductGrows(a, b + 1, p);
      assert (b + 1) * p == b * p + p;
    }
  }

  // ----- text -----

  /** JavaScript `value.substr(start, length)` for a start that is not negative. */
  function Substr(value: string, start: nat, length: nat): string {
    if start >= |value| then "" else value[start..Min(start + length, |value|)]
  }

  /** JavaScript `value.replace(c, '')`: the first occurrence only. */
  function RemoveFirst(value: string, c: char): string {
    if value == "" then ""
    else if value[0] == c then value[1..]
    else [value[0]] + RemoveFirst(value[1..], c)
  }

  lemma {:induction false} RemoveFirstAt(value: string, c: char, i: nat)
    requires i < |value| && value[i] == c && c !in value[..i]
    ensures RemoveFirst(value, c) == value[..i] + value[i + 1..]
  {
    if i > 0 {
      assert value[0] in value[..i];
      assert value[1..][..i - 1] == value[..i][1..];
      RemoveFirstAt(value[1..], c, i - 1);
    }
  }

  lemma {:induction false} SkipDash(keep: char -> bool, part: string, rest: string)
    requires (forall c :: keep(c) <==> c != '-') && '-' !in part
    ensures Filter(keep, part + rest) == part + Filter(keep, rest)
    ensures Filter(keep, part + "-" + rest) == part + Filter(keep, rest)
  {
    if part == "" {
      assert part + rest == rest && part + "-" + rest == "-" + rest && ("-" + rest)[1..] == rest;
    } else {
      assert (part + rest)[1..] == part[1..] + rest && (part + "-" + rest)[1..] == part[1..] + "-" + rest;
      SkipDash(keep, part[1..], rest);
    }
  }

  // ----- the operations -----

  const OFFSET := 12219292800000 // from 1582-10-15 to 1970-01-01, in milliseconds
  const NOT_VERSION_6 := "Only version 6 of UUID is supported."
  const SYNTAX_ERROR := "Cannot convert to a BigInt"

  function GetGuidTimestamp(guid: string): Result<int, string> {
    var guidValue := RemoveFirst(guid, '-');
    if Substr(guidValue, 13, 1) != "6" then Failure(NOT_VERSION_6)
    else
      var digits := Substr(guidValue, 0, 12) + Substr(guidValue, 14, 3);
      if AllHex(digits) then Success(FromHex(digits) / 10000 - OFFSET) else Failure(SYNTAX_ERROR)
  }

  predicate IsValidV6Guid(guid: string) {
    && |guid| == 36
    && AllHex(guid[0..8]) && guid[8] == '-' && AllHex(guid[9..13]) && guid[13] == '-'
    && guid[14] == '6' && AllHex(guid[15..18]) && guid[18] == '-'
    && AllHex(guid[19..23]) && guid[23] == '-' && AllHex(guid[24..36])
  }

  /** The last twelve digits; dashes do not count. */
  function GetGuidNode(guid: string): string {
    Substr(Filter((c: char) => c != '-', guid), 20, 12)
  }

  /** `made` is a new id from the library. */
  function CreateGuidFromBaseGuid(baseGuid: string, made: string): string {
    Substr(made, 0, 24) + GetGuidNode(baseGuid)
  }

  /** The library's layout of a tick count, with a clock sequence and a node. */
  function Encode(ticks: nat, clock: string, node: string): string
    requires ticks < Power(15)
  {
    var digits := ToHex(ticks, 15);
    HexRoundTrip(ticks, 15);
    digits[..8] + "-" + digits[8..12] + "-6" + digits[12..] + "-" + clock + "-" + node
  }

  /** The digits of the tick count. */
  function TickDigits(guid: string): (digits: string)
    requires IsValidV6Guid(guid)
    ensures |digits| == 15 && AllHex(digits)
  {
    guid[..8] + guid[9..13] + guid[15..18]
  }

  function Ticks(guid: string): nat
    requires IsValidV6Guid(guid)
  {
    FromHex(TickDigits(guid))
  }

  // ----- what they keep -----

  /** A valid id is read without an error, and only its tick count matters. */
  lemma TimestampOfValid(guid: string)
    requires IsValidV6Guid(guid)
    ensures GetGuidTimestamp(guid) == Success(Ticks(guid) / 10000 - OFFSET)
  {
    forall c | c in guid[..8] ensures c != '-' {
      assert c in guid[0..8];
    }
    RemoveFirstAt(guid, '-', 8);
    var value := guid[..8] + guid[9..];
    assert value[13] == guid[14];
    assert Substr(value, 13, 1) == "6";
    assert Substr(value, 0, 12) == guid[..8] + guid[9..13];
    assert Substr(value, 14, 3) == guid[15..18];
  }

  /** Where the layout is that of an id, whatever the digits: any version but 6 is refused, and 6 is not. */
  lemma OtherVersionsAreRefused(guid: string)
    requires |guid| == 36 && guid[8] == '-' && '-' !in guid[..8]
    ensures GetGuidTimestamp(guid) == Failure(NOT_VERSION_6) <==> guid[14] != '6'
  {
    RemoveFirstAt(guid, '-', 8);
    var value := guid[..8] + guid[9..];
    assert value[13] == guid[14];
    assert Substr(value, 13, 1) == [guid[14]];
  }

  function SmallLetter(c: char): char { if 'A' <= c <= 'F' then (c as nat + 32) as char else c }

  function SmallLetters(s: string): string { Map(SmallLetter, s) }

  lemma SmallHex(s: string)
    ensures AllHex(SmallLetters(s)) <==> AllHex(s)
  {
    var small := SmallLetters(s);
    if AllHex(small) {
      forall i | 0 <= i < |s| ensures IsHex(s[i]) {
        assert small[i] in small;
      }
    }
    if AllHex(s) {
      forall i | 0 <= i < |small| ensures IsHex(small[i]) {
        assert s[i] in s;
      }
    }
  }

  lemma {:induction false} SmallValue(s: string)
    requires AllHex(s) && AllHex(SmallLetters(s))
    ensures FromHex(SmallLetters(s)) == FromHex(s)
  {
    if s != "" {
      assert SmallLetters(s)[1..] == SmallLetters(s[1..]);
      assert s[0] in s && HexValue(SmallLetter(s[0])) == HexValue(s[0]);
      SmallValue(s[1..]);
    }
  }

  /** An id in capitals is as valid as in small letters, and has the same timestamp. */
  lemma CapitalsDoNotMatter(guid: string)
    ensures IsValidV6Guid(SmallLetters(guid)) <==> IsValidV6Guid(guid)
    ensures IsValidV6Guid(guid) ==> GetGuidTimestamp(SmallLetters(guid)) == GetGuidTimestamp(guid)
  {
    hide AllHex, GetGuidTimestamp, FromHex;
    var small := SmallLetters(guid);
    assert forall i, j :: 0 <= i <= j <= |guid| ==> small[i..j] == SmallLetters(guid[i..j]);
    if |guid| == 36 {
      SmallHex(guid[0..8]);
      SmallHex(guid[9..13]);
      SmallHex(guid[15..18]);
      SmallHex(guid[19..23]);
      SmallHex(guid[24..36]);
    }
    if IsValidV6Guid(guid) {
      assert TickDigits(small) == SmallLetters(TickDigits(guid));
      SmallValue(TickDigits(guid));
      TimestampOfValid(guid);
      TimestampOfValid(small);
    }
  }

  predicate IsLeapYear(year: nat) { year % 4 == 0 && (year % 100 != 0 || year % 400 == 0) }

  /** The days of the years from the first up to, and without, the last. */
  function DaysOfYears(first: nat, last: nat): nat {
    if first >= last then 0 else DaysOfYears(first, last - 1) + if IsLeapYear(last - 1) then 366 else 365
  }

  function LeapYearsThrough(year: nat): int { year / 4 - year / 100 + year / 400 }

  lemma {:induction false} DaysCounted(first: nat, last: nat)
    requires 0 < first <= last
    ensures DaysOfYears(first, last) == 365 * (last - first) + LeapYearsThrough(last - 1) - LeapYearsThrough(first - 1)
  {
    if first < last {
      DaysCounted(first, last - 1);
      OneMoreYear(last - 2);
    }
  }

  lemma OneMoreYear(year: nat)
    ensures LeapYearsThrough(year + 1) == LeapYearsThrough(year) + if IsLeapYear(year + 1) then 1 else 0
  {
    OneMoreQuotients(year);
    Multiples(year + 1);
  }

  lemma OneMoreQuotients(n: nat)
    ensures (n + 1) / 4 == n / 4 + if (n + 1) % 4 == 0 then 1 else 0
    ensures (n + 1) / 100 == n / 100 + if (n + 1) % 100 == 0 then 1 else 0
    ensures (n + 1) / 400 == n / 400 + if (n + 1) % 400 == 0 then 1 else 0
  {}

  lemma Multiples(n: nat)
    ensures n % 400 == 0 ==> n % 100 == 0
    ensures n % 100 == 0 ==> n % 4 == 0
  {
    var hundreds, fourHundreds := n / 100, n / 400;
    assert n % 400 == 0 ==> n == 100 * (4 * fourHundreds);
    assert n % 100 == 0 ==> n == 4 * (25 * hundreds);
  }

  /** OFFSET is the time from 15 October 1582 to the end of that year, and through the years up to 1970. */
  lemma OffsetIsBaseDate()
    ensures OFFSET == (17 + 30 + 31 + DaysOfYears(1583, 1970)) * 24 * 60 * 60 * 1000
  {
    DaysCounted(1583, 1970);
  }

  /** Reading the timestamp of an encoded tick count gives it back, in whole milliseconds from 1970. */
  lemma TimestampRoundTrip(ticks: nat, clock: string, node: string)
    requires ticks < Power(15) && |clock| == 4 && AllHex(clock) && |node| == 12 && AllHex(node)
    ensures var guid := Encode(ticks, clock, node);
      && IsValidV6Guid(guid) && Ticks(guid) == ticks
      && GetGuidTimestamp(guid) == Success(ticks / 10000 - OFFSET)
      && GetGuidNode(guid) == node
  {
    hide IsHex, AllHex, ToHex, FromHex, Power, GetGuidTimestamp, GetGuidNode;
    HexRoundTrip(ticks, 15);
    var digits, guid := ToHex(ticks, 15), Encode(ticks, clock, node);
    EncodeParts(digits, guid, clock, node);
    TimestampOfValid(guid);
    NodeOfValid(guid);
  }

  lemma EncodeParts(digits: string, guid: string, clock: string, node: string)
    requires |digits| == 15 && AllHex(digits) && |clock| == 4 && AllHex(clock) && |node| == 12 && AllHex(node)
    requires guid == digits[..8] + "-" + digits[8..12] + "-6" + digits[12..] + "-" + clock + "-" + node
    ensures IsValidV6Guid(guid) && TickDigits(guid) == digits && guid[24..36] == node
  {
    hide IsHex;
    assert guid[0..8] == digits[..8] && guid[9..13] == digits[8..12] && guid[15..18] == digits[12..];
    assert guid[19..23] == clock && guid[24..36] == node;
    assert AllHex(digits[..8]) && AllHex(digits[8..12]) && AllHex(digits[12..]);
  }

  lemma NodeOfValid(guid: string)
    requires IsValidV6Guid(guid)
    ensures GetGuidNode(guid) == guid[24..36]
  {
    hide IsHex, AllHex;
    var keep := (c: char) => c != '-';
    var parts := guid[0..8] + guid[9..13] + guid[14..18] + guid[19..23] + guid[24..36];
    WithoutDashes(guid, keep);
    assert parts[20..32] == guid[24..36];
  }

  lemma WithoutDashes(guid: string, keep: char -> bool)
    requires IsValidV6Guid(guid) && forall c :: keep(c) <==> c != '-'
    ensures Filter(keep, guid) == guid[0..8] + guid[9..13] + guid[14..18] + guid[19..23] + guid[24..36]
  {
    NoDashes(guid);
    var a, b, c, d, e := guid[0..8], guid[9..13], guid[14..18], guid[19..23], guid[24..36];
    assert guid == a + "-" + (b + "-" + (c + "-" + (d + "-" + (e + ""))));
    SkipDash(keep, e, "");
    SkipDash(keep, d, e + "");
    SkipDash(keep, c, d + "-" + (e + ""));
    SkipDash(keep, b, c + "-" + (d + "-" + (e + "")));
    SkipDash(keep, a, b + "-" + (c + "-" + (d + "-" + (e + ""))));
  }

  lemma NoDashes(guid: string)
    requires IsValidV6Guid(guid)
    ensures '-' !in guid[0..8] && '-' !in guid[9..13] && '-' !in guid[14..18] && '-' !in guid[19..23] && '-' !in guid[24..36]
  {
    assert guid[14..18] == [guid[14]] + guid[15..18];
  }

  /** From a new id and any base text: the result is valid exactly when the base has twelve digits for a node, and then it
      has the timestamp of the new id and the node of the base. */
  lemma BaseGuidKeeps(baseGuid: string, made: string)
    requires IsValidV6Guid(made)
    ensures var guid, node := CreateGuidFromBaseGuid(baseGuid, made), GetGuidNode(baseGuid);
      && (IsValidV6Guid(guid) <==> |node| == 12 && AllHex(node))
      && (IsValidV6Guid(guid) ==> GetGuidTimestamp(guid) == GetGuidTimestamp(made) && GetGuidNode(guid) == node)
    ensures IsValidV6Guid(baseGuid) ==> IsValidV6Guid(CreateGuidFromBaseGuid(baseGuid, made))
  {
    hide IsHex;
    var guid, node := CreateGuidFromBaseGuid(baseGuid, made), GetGuidNode(baseGuid);
    assert guid == made[..24] + node;
    if |guid| == 36 {
      assert guid[24..36] == node;
      assert guid[0..8] == made[0..8] && guid[9..13] == made[9..13] && guid[15..18] == made[15..18];
      assert guid[19..23] == made[19..23];
    }
    if IsValidV6Guid(guid) {
      TimestampOfValid(guid);
      TimestampOfValid(made);
      NodeOfValid(guid);
    }
    if IsValidV6Guid(baseGuid) { NodeOfValid(baseGuid); }
  }

  lemma {:induction false} CompareParts(a: string, b: string, c: string, d: string)
    requires |a| == |b|
    ensures CompareText(a + c, b + d) == if a == b then CompareText(c, d) else CompareText(a, b)
  {
    if a == "" {
      assert a + c == c && b + d == d;
    } else {
      assert (a + c)[1..] == a[1..] + c && (b + d)[1..] == b[1..] + d;
      CompareParts(a[1..], b[1..], c, d);
      assert a == [a[0]] + a[1..] && b == [b[0]] + b[1..];
    }
  }

  lemma PartsOrder(a: string, b: string)
    requires IsValidV6Guid(a) && IsValidV6Guid(b)
    ensures CompareText(a[..18], b[..18]) == CompareText(TickDigits(a), TickDigits(b))
  {
    hide IsHex, AllHex, CompareText;
    var a1, a2, a3 := a[..8], a[9..13], a[15..18];
    var b1, b2, b3 := b[..8], b[9..13], b[15..18];
    var dash, version := "-", "-6";
    assert a[..18] == a1 + (dash + (a2 + (version + a3))) && b[..18] == b1 + (dash + (b2 + (version + b3)));
    CompareParts(a1, b1, dash + (a2 + (version + a3)), dash + (b2 + (version + b3)));
    CompareParts(dash, dash, a2 + (version + a3), b2 + (version + b3));
    CompareParts(a2, b2, version + a3, version + b3);
    CompareParts(version, version, a3, b3);
    assert TickDigits(a) == a1 + (a2 + a3) && TickDigits(b) == b1 + (b2 + b3);
    CompareParts(a1, b1, a2 + a3, b2 + b3);
    CompareParts(a2, b2, a3, b3);
    CompareTextFacts(a1, b1);
    CompareTextFacts(a2, b2);
  }

  /** For ids whose tick digits come from such an alphabet, the text up to the version's group sorts by the tick count, so
      in text order their timestamps never go back. */
  lemma TextOrderIsTimeOrder(a: string, b: string, alphabet: set<char>)
    requires IsValidV6Guid(a) && IsValidV6Guid(b) && OrderSafe(alphabet)
    requires Digits(TickDigits(a)) <= alphabet && Digits(TickDigits(b)) <= alphabet
    ensures CompareText(a[..18], b[..18]) == Sign(Ticks(a) - Ticks(b))
    ensures CompareText(a, b) <= 0 ==> Ticks(a) <= Ticks(b)
    ensures CompareText(a, b) <= 0 ==>
      var ta, tb := GetGuidTimestamp(a), GetGuidTimestamp(b);
      ta.Success? && tb.Success? && ta.value <= tb.value
  {
    hide IsHex, AllHex, CompareText, FromHex, GetGuidTimestamp, OrderSafe, Digits;
    PartsOrder(a, b);
    HexOrder(TickDigits(a), TickDigits(b), alphabet);
    CompareParts(a[..18], b[..18], a[18..], b[18..]);
    assert a == a[..18] + a[18..] && b == b[..18] + b[18..];
    CompareTextFacts(a[..18], b[..18]);
    TimestampOfValid(a);
    TimestampOfValid(b);
  }

  /** The digits of one case make such an alphabet. */
  lemma OneCaseIsSafe(alphabet: set<char>)
    requires (forall c :: c in alphabet ==> !('A' <= c <= 'F')) || (forall c :: c in alphabet ==> !('a' <= c <= 'f'))
    ensures OrderSafe(alphabet)
  {}

  ghost predicate TextOrderKept(alphabet: set<char>) {
    forall a, b :: IsValidV6Guid(a) && IsValidV6Guid(b) && Digits(TickDigits(a)) <= alphabet && Digits(TickDigits(b)) <= alphabet
      ==> CompareText(a[..18], b[..18]) == Sign(Ticks(a) - Ticks(b))
  }

  /** Text order is time order for all ids with tick digits from an alphabet, if and only if no capital letter in it stands
      for as much as a small letter in it, or for more. */
  lemma TextOrderKeptExactly(alphabet: set<char>)
    ensures TextOrderKept(alphabet) <==> OrderSafe(alphabet)
  {
    if OrderSafe(alphabet) {
      forall a, b | IsValidV6Guid(a) && IsValidV6Guid(b) && Digits(TickDigits(a)) <= alphabet && Digits(TickDigits(b)) <= alphabet
        ensures CompareText(a[..18], b[..18]) == Sign(Ticks(a) - Ticks(b))
      {
        TextOrderIsTimeOrder(a, b, alphabet);
      }
    }
    forall c, d | c in alphabet && d in alphabet && 'A' <= c <= 'F' && 'a' <= d <= 'f' && HexValue(c) >= HexValue(d)
      ensures !TextOrderKept(alphabet)
    {
      RepeatedDigits(c, d);
      assert Digits(TickDigits(Repeated(c))) <= alphabet && Digits(TickDigits(Repeated(d))) <= alphabet;
    }
  }

  function Repeat(c: char, n: nat): string { seq(n, _ => c) }

  /** An id whose tick digits are all the same. */
  function Repeated(c: char): string {
    Repeat(c, 8) + "-" + Repeat(c, 4) + "-6" + Repeat(c, 3) + "-" + Repeat('0', 4) + "-" + Repeat('0', 12)
  }

  lemma {:induction false} RepeatedGrows(c: char, d: char, n: nat)
    requires IsHex(c) && IsHex(d) && HexValue(c) >= HexValue(d)
    ensures AllHex(Repeat(c, n)) && AllHex(Repeat(d, n)) && FromHex(Repeat(c, n)) >= FromHex(Repeat(d, n))
  {
    if n > 0 {
      RepeatedGrows(c, d, n - 1);
      assert Repeat(c, n)[1..] == Repeat(c, n - 1) && Repeat(d, n)[1..] == Repeat(d, n - 1);
      ProductGrows(HexValue(c), HexValue(d), Power(n - 1));
    }
  }

  lemma RepeatedParts(c: char)
    requires IsHex(c)
    ensures IsValidV6Guid(Repeated(c)) && TickDigits(Repeated(c)) == Repeat(c, 15)
    ensures Repeated(c)[..18][0] == c && Digits(TickDigits(Repeated(c))) == {c}
  {
    hide IsHex;
    var guid, digits := Repeated(c), Repeat(c, 15);
    assert digits[..8] == Repeat(c, 8) && digits[8..12] == Repeat(c, 4) && digits[12..] == Repeat(c, 3);
    assert IsHex('0') by { ZeroIsHex(); }
    EncodeParts(digits, guid, Repeat('0', 4), Repeat('0', 12));
    assert digits[0] == c;
  }

  lemma ZeroIsHex()
    ensures IsHex('0')
  {}

  lemma RepeatedDigits(c: char, d: char)
    requires 'A' <= c <= 'F' && 'a' <= d <= 'f' && HexValue(c) >= HexValue(d)
    ensures var a, b := Repeated(c), Repeated(d);
      && IsValidV6Guid(a) && IsValidV6Guid(b)
      && Digits(TickDigits(a)) == {c} && Digits(TickDigits(b)) == {d}
      && CompareText(a[..18], b[..18]) == -1 && Ticks(a) >= Ticks(b)
  {
    hide Digits, Repeated, FromHex, AllHex;
    RepeatedParts(c);
    RepeatedParts(d);
    RepeatedGrows(c, d, 15);
  }
}
