/** Strings as UTF-16 code units: decimal numerals, code-unit order, and quoting. */
module Text {
  import opened Basics

  type CodeUnit = c: int | 0 <= c < 0x10000

  type Text = seq<CodeUnit>

  /** The code units of an ASCII literal. */
  function Ascii(s: string): (t: Text)
    requires forall i :: 0 <= i < |s| ==> s[i] < 128 as char
    ensures |t| == |s|
  {
    seq(|s|, i requires 0 <= i < |s| => s[i] as int)
  }

  const QUOTE: CodeUnit := 34
  const BACKSLASH: CodeUnit := 92
  const ZERO: CodeUnit := 48
  const MINUS: CodeUnit := 45

  predicate IsDigit(c: CodeUnit) {
    48 <= c <= 57
  }

  // ---------- decimal numerals ----------

  function Digits(n: nat): (t: Text)
    ensures t != [] && forall i :: 0 <= i < |t| ==> IsDigit(t[i])
  {
    if n < 10 then [48 + n] else Digits(n / 10) + [48 + n % 10]
  }

  function Decimal(n: int): (t: Text)
    ensures t != []
  {
    if n < 0 then [MINUS] + Digits(-n) else Digits(n)
  }

  function DigitsValue(t: Text): int {
    if t == [] then 0 else 10 * DigitsValue(t[..|t| - 1]) + (t[|t| - 1] as int - 48)
  }

  function DecimalValue(t: Text): int {
    if t != [] && t[0] == MINUS then -DigitsValue(t[1..]) else DigitsValue(t)
  }

  lemma {:induction false} DigitsRoundTrip(n: nat)
    ensures DigitsValue(Digits(n)) == n
  {
    if n < 10 {
      assert Digits(n)[..0] == [];
    } else {
      DigitsRoundTrip(n / 10);
      assert Digits(n)[..|Digits(n)| - 1] == Digits(n / 10);
    }
  }

  lemma DecimalRoundTrip(n: int)
    ensures DecimalValue(Decimal(n)) == n
  {
    if n < 0 {
      DigitsRoundTrip(-n);
      assert Decimal(n)[1..] == Digits(-n);
    } else {
      DigitsRoundTrip(n);
      assert IsDigit(Decimal(n)[0]);
    }
  }

  // ---------- code-unit order ----------

  /** The order of `sort()` without a comparator. */
  predicate Less(a: Text, b: Text)
    decreases |a|
  {
    b != [] && (a == [] || a[0] < b[0] || (a[0] == b[0] && Less(a[1..], b[1..])))
  }

  lemma {:induction false} LessIrreflexive(a: Text)
    ensures !Less(a, a)
    decreases |a|
  {
    if a != [] { LessIrreflexive(a[1..]); }
  }

  lemma {:induction false} LessTransitive(a: Text, b: Text, c: Text)
    requires Less(a, b) && Less(b, c)
    ensures Less(a, c)
    decreases |a|
  {
    if a != [] && a[0] == b[0] && b[0] == c[0] { LessTransitive(a[1..], b[1..], c[1..]); }
  }

  lemma {:induction false} LessTotal(a: Text, b: Text)
    requires a != b
    ensures Less(a, b) || Less(b, a)
    decreases |a|
  {
    if a != [] && b != [] && a[0] == b[0] {
      assert a == [a[0]] + a[1..] && b == [b[0]] + b[1..];
      LessTotal(a[1..], b[1..]);
    }
  }

  /** The first code units in which two texts differ are in order. */
  predicate DiffersAt(a: Text, b: Text, k: nat) {
    k < |a| && k < |b| && a[..k] == b[..k] && a[k] < b[k]
  }

  /** Lexicographic order by code units: a proper prefix, or smaller at the first difference. */
  ghost predicate Precedes(a: Text, b: Text) {
    (a <= b && a != b) || exists k :: DiffersAt(a, b, k)
  }

  lemma TailDiffers(a: Text, b: Text, k: nat)
    requires a != [] && b != [] && a[0] == b[0]
    ensures DiffersAt(a[1..], b[1..], k) <==> DiffersAt(a, b, k + 1)
    ensures !DiffersAt(a, b, 0)
  {
    if k < |a| - 1 && k < |b| - 1 {
      assert a[..k + 1] == [a[0]] + a[1..][..k] && b[..k + 1] == [b[0]] + b[1..][..k];
    }
  }

  lemma HeadDiffers(a: Text, b: Text, k: nat)
    requires a != [] && b != [] && a[0] != b[0]
    ensures DiffersAt(a, b, k) <==> k == 0 && a[0] < b[0]
  {
    if 0 < k < |a| && k < |b| { assert a[..k][0] != b[..k][0]; }
  }

  /** The order `sort()` uses is this one. */
  lemma {:induction false} LessIff(a: Text, b: Text)
    ensures Less(a, b) <==> Precedes(a, b)
    decreases |a|
  {
    if a != [] && b != [] && a[0] == b[0] {
      LessIff(a[1..], b[1..]);
      assert a == [a[0]] + a[1..] && b == [b[0]] + b[1..];
      if k: nat :| DiffersAt(a, b, k) {
        TailDiffers(a, b, k);
        TailDiffers(a, b, k - 1);
      }
      if k: nat :| DiffersAt(a[1..], b[1..], k) { TailDiffers(a, b, k); }
      hide DiffersAt;
    } else if a != [] && b != [] {
      HeadDiffers(a, b, 0);
      if k: nat :| DiffersAt(a, b, k) { HeadDiffers(a, b, k); }
      hide DiffersAt;
    }
  }

  // ---------- quoting ----------

  predicate IsLead(c: CodeUnit) { 0xD800 <= c < 0xDC00 }

  predicate IsTrail(c: CodeUnit) { 0xDC00 <= c < 0xE000 }

  predicate StartsPair(s: Text) {
    |s| >= 2 && IsLead(s[0]) && IsTrail(s[1])
  }

  function HexDigit(d: nat): CodeUnit
    requires d < 16
  {
    if d < 10 then 48 + d else 87 + d
  }

  function HexValue(c: CodeUnit): Option<nat> {
    if 48 <= c <= 57 then Some(c - 48) else if 97 <= c <= 102 then Some(c - 87) else None
  }

  /** The letter of a two-character escape. */
  function ShortEscape(c: CodeUnit): Option<CodeUnit> {
    if c == 8 then Some(98) else if c == 9 then Some(116) else if c == 10 then Some(110)
    else if c == 12 then Some(102) else if c == 13 then Some(114)
    else if c == QUOTE then Some(QUOTE) else if c == BACKSLASH then Some(BACKSLASH) else None
  }

  function HexEscape(c: CodeUnit): Text {
    [BACKSLASH, 117, HexDigit(c / 4096), HexDigit(c / 256 % 16), HexDigit(c / 16 % 16), HexDigit(c % 16)]
  }

  /** One code unit that is not part of a surrogate pair. */
  function EscapeUnit(c: CodeUnit): Text {
    if ShortEscape(c).Some? then [BACKSLASH, ShortEscape(c).value]
    else if c < 32 || IsLead(c) || IsTrail(c) then HexEscape(c)
    else [c]
  }

  function EscapeAll(s: Text): Text
    decreases |s|
  {
    if s == [] then []
    else if StartsPair(s) then [s[0], s[1]] + EscapeAll(s[2..])
    else EscapeUnit(s[0]) + EscapeAll(s[1..])
  }

  function Quote(s: Text): Text {
    [QUOTE] + EscapeAll(s) + [QUOTE]
  }

  const HEX: Text := Ascii("0123456789abcdef")

  /**
   The escapes of section 7 of RFC 8259: two-character forms where there are any, hexadecimal
   ones for the other control characters and for lone surrogates, and nothing else escaped.
   */
  lemma EscapesOfJson(c: CodeUnit)
    ensures EscapeUnit(8) == Ascii("\\b") && EscapeUnit(9) == Ascii("\\t") && EscapeUnit(10) == Ascii("\\n")
    ensures EscapeUnit(12) == Ascii("\\f") && EscapeUnit(13) == Ascii("\\r")
    ensures EscapeUnit(34) == Ascii("\\\"") && EscapeUnit(92) == Ascii("\\\\")
    ensures c in {8, 9, 10, 12, 13, 34, 92} ||
      EscapeUnit(c) == if c < 32 || 0xD800 <= c < 0xE000
                       then Ascii("\\u") + [HEX[c / 4096], HEX[c / 256 % 16], HEX[c / 16 % 16], HEX[c % 16]] else [c]
  {
    HexDigitsAre(c / 4096);
    HexDigitsAre(c / 256 % 16);
    HexDigitsAre(c / 16 % 16);
    HexDigitsAre(c % 16);
  }

  lemma HexDigitsAre(d: nat)
    requires d < 16
    ensures HexDigit(d) == HEX[d]
  {
    assert HEX[0] == 48 && HEX[9] == 57 && HEX[10] == 97 && HEX[15] == 102;
  }

  // ---------- reading a quoted string ----------

  function FromShortEscape(c: CodeUnit): Option<CodeUnit> {
    if c == 98 then Some(8) else if c == 116 then Some(9) else if c == 110 then Some(10)
    else if c == 102 then Some(12) else if c == 114 then Some(13)
    else if c == QUOTE then Some(QUOTE) else if c == BACKSLASH then Some(BACKSLASH) else None
  }

  /** The first code unit a string body stands for, and what follows it. */
  function ReadUnit(t: Text): (r: Option<(CodeUnit, Text)>)
    ensures r.Some? ==> |r.value.1| < |t|
  {
    if t == [] || t[0] == QUOTE then None
    else if t[0] != BACKSLASH then Some((t[0], t[1..]))
    else if |t| >= 2 && FromShortEscape(t[1]).Some? then Some((FromShortEscape(t[1]).value, t[2..]))
    else if |t| >= 6 && t[1] == 117 && forall i :: 2 <= i < 6 ==> HexValue(t[i]).Some? then
      Some((4096 * HexValue(t[2]).value + 256 * HexValue(t[3]).value + 16 * HexValue(t[4]).value + HexValue(t[5]).value, t[6..]))
    else None
  }

  /** The rest of a string up to its closing quote. */
  function ReadBody(t: Text): (r: Option<(Text, Text)>)
    ensures r.Some? ==> |r.value.1| < |t|
    decreases |t|
  {
    if t != [] && t[0] == QUOTE then Some(([], t[1..]))
    else
      var u := ReadUnit(t);
      if u.None? then None
      else
        var more := ReadBody(u.value.1);
        if more.None? then None else Some(([u.value.0] + more.value.0, more.value.1))
  }

  function ReadString(t: Text): (r: Option<(Text, Text)>)
    ensures r.Some? ==> |r.value.1| < |t|
  {
    if t != [] && t[0] == QUOTE then ReadBody(t[1..]) else None
  }

  lemma HexRoundTrip(d: nat)
    requires d < 16
    ensures HexValue(HexDigit(d)) == Some(d)
  {}

  lemma ReadEscapedUnit(c: CodeUnit, rest: Text)
    ensures ReadUnit(EscapeUnit(c) + rest) == Some((c, rest))
    ensures (EscapeUnit(c) + rest)[0] != QUOTE
  {
    var t := EscapeUnit(c) + rest;
    assert t[|EscapeUnit(c)|..] == rest;
    if ShortEscape(c).Some? {
      assert t[1] == ShortEscape(c).value;
    } else if c < 32 || IsLead(c) || IsTrail(c) {
      assert t[..6] == HexEscape(c);
      assert t[2] == HexDigit(c / 4096) && t[3] == HexDigit(c / 256 % 16);
      assert t[4] == HexDigit(c / 16 % 16) && t[5] == HexDigit(c % 16);
      HexRoundTrip(c / 4096);
      HexRoundTrip(c / 256 % 16);
      HexRoundTrip(c / 16 % 16);
      HexRoundTrip(c % 16);
      assert c / 256 / 16 == c / 4096 && c / 16 / 16 == c / 256;
    }
  }

  /** `t` begins with what reads as the unit `c`. */
  lemma ReadBodyOne(t: Text, c: CodeUnit, more: Text, s: Text, rest: Text)
    requires t != [] && t[0] != QUOTE && ReadUnit(t) == Some((c, more)) && ReadBody(more) == Some((s, rest))
    ensures ReadBody(t) == Some(([c] + s, rest))
  {}

  lemma ReadRaw(c: CodeUnit, more: Text, s: Text, rest: Text)
    requires c != QUOTE && c != BACKSLASH && ReadBody(more) == Some((s, rest))
    ensures ReadBody([c] + more) == Some(([c] + s, rest))
  {
    assert ([c] + more)[1..] == more;
    ReadBodyOne([c] + more, c, more, s, rest);
  }

  lemma PairPeels(c: CodeUnit, d: CodeUnit, x: Text, end: Text)
    ensures ([c, d] + x) + end == [c] + ([d] + (x + end))
  {}

  lemma TextPeels(s: Text)
    requires |s| >= 2
    ensures s == [s[0]] + ([s[1]] + s[2..])
  {}

  lemma ReadPair(s: Text, end: Text, rest: Text)
    requires StartsPair(s) && ReadBody(EscapeAll(s[2..]) + end) == Some((s[2..], rest))
    ensures ReadBody(EscapeAll(s) + end) == Some((s, rest))
  {
    var more := EscapeAll(s[2..]) + end;
    assert EscapeAll(s) == [s[0], s[1]] + EscapeAll(s[2..]);
    hide ReadBody, ReadUnit, EscapeAll;
    ReadRaw(s[1], more, s[2..], rest);
    ReadRaw(s[0], [s[1]] + more, [s[1]] + s[2..], rest);
    PairPeels(s[0], s[1], EscapeAll(s[2..]), end);
    TextPeels(s);
  }

  lemma UnitPeels(unit: Text, x: Text, end: Text)
    ensures (unit + x) + end == unit + (x + end)
  {}

  lemma HeadPeels(s: Text)
    requires s != []
    ensures s == [s[0]] + s[1..]
  {}

  lemma ReadSingle(s: Text, end: Text, rest: Text)
    requires s != [] && !StartsPair(s) && ReadBody(EscapeAll(s[1..]) + end) == Some((s[1..], rest))
    ensures ReadBody(EscapeAll(s) + end) == Some((s, rest))
  {
    var more := EscapeAll(s[1..]) + end;
    assert EscapeAll(s) == EscapeUnit(s[0]) + EscapeAll(s[1..]);
    hide ReadBody, ReadUnit, EscapeAll, EscapeUnit, StartsPair;
    ReadEscapedUnit(s[0], more);
    UnitPeels(EscapeUnit(s[0]), EscapeAll(s[1..]), end);
    HeadPeels(s);
    ReadBodyOne(EscapeUnit(s[0]) + more, s[0], more, s[1..], rest);
  }

  lemma {:induction false} ReadEscapedBody(s: Text, rest: Text)
    ensures ReadBody(EscapeAll(s) + ([QUOTE] + rest)) == Some((s, rest))
    decreases |s|
  {
    var end := [QUOTE] + rest;
    if s == [] {
      assert EscapeAll(s) + end == end && end[1..] == rest;
    } else if StartsPair(s) {
      ReadEscapedBody(s[2..], rest);
      hide ReadBody, EscapeAll;
      ReadPair(s, end, rest);
    } else {
      ReadEscapedBody(s[1..], rest);
      hide ReadBody, EscapeAll;
      ReadSingle(s, end, rest);
    }
  }

  /** Reading undoes quoting, for every string, lone surrogates included. */
  lemma QuoteRoundTrip(s: Text, rest: Text)
    ensures ReadString(Quote(s) + rest) == Some((s, rest))
  {
    ReadEscapedBody(s, rest);
    assert (Quote(s) + rest)[1..] == EscapeAll(s) + ([QUOTE] + rest);
  }

  // ---------- well-formed text ----------

  /** No surrogate stands alone, so encoding the text as UTF-8 loses nothing. */
  predicate WellFormed(s: Text)
    decreases |s|
  {
    s == [] || (if StartsPair(s) then WellFormed(s[2..]) else !IsLead(s[0]) && !IsTrail(s[0]) && WellFormed(s[1..]))
  }

  lemma {:induction false} WellFormedConcat(s: Text, t: Text)
    requires WellFormed(s) && WellFormed(t)
    ensures WellFormed(s + t)
    decreases |s|
  {
    if s == [] {
      assert s + t == t;
    } else if StartsPair(s) {
      WellFormedConcat(s[2..], t);
      assert (s + t)[2..] == s[2..] + t;
    } else {
      WellFormedConcat(s[1..], t);
      assert (s + t)[1..] == s[1..] + t;
    }
  }

  predicate Plain(s: Text) {
    forall i :: 0 <= i < |s| ==> s[i] < 0xD800
  }

  lemma {:induction false} PlainIsWellFormed(s: Text)
    requires Plain(s)
    ensures WellFormed(s)
    decreases |s|
  {
    if s != [] { PlainIsWellFormed(s[1..]); }
  }

  lemma {:induction false} EscapedIsWellFormed(s: Text)
    ensures WellFormed(EscapeAll(s))
    decreases |s|
  {
    if s == [] {
    } else if StartsPair(s) {
      EscapedIsWellFormed(s[2..]);
      assert ([s[0], s[1]] + EscapeAll(s[2..]))[2..] == EscapeAll(s[2..]);
    } else {
      EscapedIsWellFormed(s[1..]);
      assert WellFormed(EscapeUnit(s[0])) by {
        if Plain(EscapeUnit(s[0])) { PlainIsWellFormed(EscapeUnit(s[0])); } else { assert [s[0]][1..] == []; }
      }
      WellFormedConcat(EscapeUnit(s[0]), EscapeAll(s[1..]));
    }
  }

  lemma QuotedIsWellFormed(s: Text)
    ensures WellFormed(Quote(s))
  {
    EscapedIsWellFormed(s);
    PlainIsWellFormed([QUOTE]);
    WellFormedConcat([QUOTE], EscapeAll(s));
    WellFormedConcat([QUOTE] + EscapeAll(s), [QUOTE]);
  }
}
