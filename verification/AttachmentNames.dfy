/** File names, sniffed types, and the associated-data strings built from them. */
module AttachmentNames {
  import opened Basics
  import opened Text

  const DOT: CodeUnit := 46
  const UNDERSCORE: CodeUnit := 95
  const PIPE: CodeUnit := 124
  const MAX_NAME := 200
  const FALLBACK: Text := Ascii("attachment.bin")

  // ---------- the sanitizer ----------

  predicate IsControl(c: CodeUnit) {
    c < 32 || c == 127
  }

  /** Backslash, slash, colon, star, question mark, quote, angle brackets, pipe. */
  predicate IsReplaced(c: CodeUnit) {
    c == 92 || c == 47 || c == 58 || c == 42 || c == 63 || c == 34 || c == 60 || c == 62 || c == PIPE
  }

  /** What `trim` takes off: white space and line terminators of ECMA-262. */
  predicate IsSpace(c: CodeUnit) {
    || 9 <= c <= 13 || c == 32 || c == 0xA0 || c == 0x1680 || 0x2000 <= c <= 0x200A
    || c == 0x2028 || c == 0x2029 || c == 0x202F || c == 0x205F || c == 0x3000 || c == 0xFEFF
  }

  function Mapped(raw: Text): Text {
    if raw == [] then []
    else
      var rest, c := Mapped(raw[..|raw| - 1]), raw[|raw| - 1];
      if IsControl(c) then rest else rest + [if IsReplaced(c) then UNDERSCORE else c]
  }

  function StripDots(t: Text): Text {
    if t != [] && t[|t| - 1] == DOT then StripDots(t[..|t| - 1]) else t
  }

  function TrimEnd(t: Text): Text {
    if t != [] && IsSpace(t[|t| - 1]) then TrimEnd(t[..|t| - 1]) else t
  }

  function TrimStart(t: Text): Text {
    if t != [] && IsSpace(t[0]) then TrimStart(t[1..]) else t
  }

  function Truncated(t: Text): Text {
    if |t| > MAX_NAME then t[..MAX_NAME] else t
  }

  function OrFallback(t: Text): Text {
    if t == [] then FALLBACK else t
  }

  /** Everything but the cut to length. */
  function Trimmed(raw: Text): Text {
    TrimEnd(TrimStart(StripDots(Mapped(raw))))
  }

  /** A missing name is None. */
  function Sanitized(raw: Option<Text>): Text {
    if raw.None? then FALLBACK else OrFallback(Truncated(Trimmed(raw.value)))
  }

  /** `sanitizeFilename` as it is written. */
  method SanitizeFilename(raw: Option<Text>) returns (r: Text)
    ensures r == Sanitized(raw)
    ensures raw.None? || Trimmed(raw.value) == [] ==> r == Ascii("attachment.bin")
    ensures raw.Some? && 1 <= |Trimmed(raw.value)| <= 200 ==> r == Trimmed(raw.value)
    ensures raw.Some? && |Trimmed(raw.value)| > 200 ==> r == Trimmed(raw.value)[..200]
  {
    if raw.None? { return FALLBACK; }
    var s := raw.value;
    var out: Text := [];
    for i := 0 to |s|
      invariant out == Mapped(s[..i])
    {
      assert s[..i + 1][..i] == s[..i];
      var c := s[i];
      if c < 32 || c == 127 { continue; }
      if c == 92 || c == 47 {
        out := out + [UNDERSCORE];
        continue;
      }
      if c == 58 || c == 42 || c == 63 || c == 34 || c == 60 || c == 62 || c == 124 {
        out := out + [UNDERSCORE];
        continue;
      }
      out := out + [c];
    }
    assert s[..|s|] == s;
    out := TrimEnd(TrimStart(StripDots(out)));
    if |out| > 200 { out := out[..200]; }
    return if |out| == 0 then FALLBACK else out;
  }

  /** No control character, separator or reserved character. */
  predicate Safe(t: Text) {
    forall i :: 0 <= i < |t| ==> !IsControl(t[i]) && !IsReplaced(t[i])
  }

  lemma {:induction false} MappedIsSafe(raw: Text)
    ensures Safe(Mapped(raw))
  {
    if raw != [] { MappedIsSafe(raw[..|raw| - 1]); }
  }

  lemma {:induction false} MappedKeepsSafe(t: Text)
    requires Safe(t)
    ensures Mapped(t) == t
  {
    if t != [] {
      MappedKeepsSafe(t[..|t| - 1]);
      assert t == t[..|t| - 1] + [t[|t| - 1]];
    }
  }

  lemma {:induction false} StripDotsSafe(t: Text)
    requires Safe(t)
    ensures Safe(StripDots(t)) && StripDots(t) <= t
  {
    if t != [] && t[|t| - 1] == DOT { StripDotsSafe(t[..|t| - 1]); }
  }

  lemma {:induction false} TrimEndSafe(t: Text)
    requires Safe(t)
    ensures Safe(TrimEnd(t)) && TrimEnd(t) <= t
    ensures TrimEnd(t) != [] ==> !IsSpace(TrimEnd(t)[|TrimEnd(t)| - 1])
  {
    if t != [] && IsSpace(t[|t| - 1]) { TrimEndSafe(t[..|t| - 1]); }
  }

  lemma {:induction false} TrimStartSafe(t: Text)
    requires Safe(t)
    ensures Safe(TrimStart(t)) && |TrimStart(t)| <= |t|
    ensures TrimStart(t) != [] ==> !IsSpace(TrimStart(t)[0])
    decreases |t|
  {
    if t != [] && IsSpace(t[0]) { TrimStartSafe(t[1..]); }
  }

  lemma FallbackIsSafe()
    ensures Safe(FALLBACK) && 1 <= |FALLBACK| <= MAX_NAME
    ensures FALLBACK[0] == 97 && FALLBACK[|FALLBACK| - 1] == 110
  {
    forall i | 0 <= i < |FALLBACK| ensures FALLBACK[i] == DOT || 97 <= FALLBACK[i] <= 122 {}
  }

  /** Separators and what file systems and headers give a meaning to. */
  const RESERVED: Text := Ascii("\\/:*?\"<>|")

  lemma ReservedAre(c: CodeUnit)
    ensures IsReplaced(c) <==> c in RESERVED
  {
    assert RESERVED == [92, 47, 58, 42, 63, 34, 60, 62, 124];
  }

  /** What becomes of each character, wherever it stands: `MappedConcat` puts the rest around it. */
  lemma MappedOne(c: CodeUnit)
    ensures Mapped([c]) == if c < 32 || c == 127 then [] else if c in RESERVED then Ascii("_") else [c]
  {
    MappedUnit(c);
    ReservedAre(c);
    assert Ascii("_") == [UNDERSCORE];
  }

  predicate AllDots(t: Text) {
    forall c :: c in t ==> c == 46
  }

  predicate AllSpace(t: Text) {
    forall c :: c in t ==> IsSpace(c)
  }

  lemma {:induction false} StripDotsIs(t: Text) returns (d: Text)
    ensures t == StripDots(t) + d && AllDots(d) && (StripDots(t) != [] ==> StripDots(t)[|StripDots(t)| - 1] != 46)
  {
    if t != [] && t[|t| - 1] == DOT {
      d := StripDotsIs(t[..|t| - 1]);
      d := d + [DOT];
    } else {
      d := [];
    }
  }

  lemma {:induction false} TrimEndIs(t: Text) returns (d: Text)
    ensures t == TrimEnd(t) + d && AllSpace(d) && (TrimEnd(t) != [] ==> !IsSpace(TrimEnd(t)[|TrimEnd(t)| - 1]))
  {
    if t != [] && IsSpace(t[|t| - 1]) {
      d := TrimEndIs(t[..|t| - 1]);
      d := d + [t[|t| - 1]];
    } else {
      d := [];
    }
  }

  lemma {:induction false} TrimStartIs(t: Text) returns (d: Text)
    ensures t == d + TrimStart(t) && AllSpace(d) && (TrimStart(t) != [] ==> !IsSpace(TrimStart(t)[0]))
    decreases |t|
  {
    if t != [] && IsSpace(t[0]) {
      d := TrimStartIs(t[1..]);
      d := [t[0]] + d;
    } else {
      d := [];
    }
  }

  /**
   Only dots at the end, and then white space on both sides, are taken off the mapped
   characters, and all of them.
   */
  lemma TrimmedIs(raw: Text) returns (left: Text, right: Text, dots: Text)
    ensures var kept := left + Trimmed(raw) + right;
      && Mapped(raw) == kept + dots && AllDots(dots) && (kept != [] ==> kept[|kept| - 1] != 46)
      && AllSpace(left) && AllSpace(right)
    ensures var t := Trimmed(raw); t != [] ==> !IsSpace(t[0]) && !IsSpace(t[|t| - 1])
  {
    hide Mapped, StripDots, TrimEnd, TrimStart, IsSpace;
    dots := StripDotsIs(Mapped(raw));
    left := TrimStartIs(StripDots(Mapped(raw)));
    right := TrimEndIs(TrimStart(StripDots(Mapped(raw))));
    var u, t := TrimStart(StripDots(Mapped(raw))), Trimmed(raw);
    assert u == t + right;
    assert left + u == left + t + right;
    if t != [] { assert t[0] == u[0]; }
  }

  /** A sanitized name is short, not empty, free of anything reserved, and does not begin with a space. */
  lemma SanitizedIsSafe(raw: Option<Text>)
    ensures var t := Sanitized(raw); Safe(t) && 1 <= |t| <= 200 && !IsSpace(t[0])
    ensures forall c :: c in Sanitized(raw) ==> c >= 32 && c != 127 && c !in RESERVED
  {
    forall c | c in Sanitized(raw) ensures !IsReplaced(c) <==> c !in RESERVED { ReservedAre(c); }
    FallbackIsSafe();
    if raw.Some? {
      var m := Mapped(raw.value);
      MappedIsSafe(raw.value);
      StripDotsSafe(m);
      TrimStartSafe(StripDots(m));
      TrimEndSafe(TrimStart(StripDots(m)));
    }
  }

  /** A name that is already safe changes only at its end. */
  lemma SanitizedOfSafe(t: Text)
    requires Safe(t) && 1 <= |t| <= MAX_NAME && !IsSpace(t[0])
    ensures Sanitized(Some(t)) == t <==> t[|t| - 1] != DOT && !IsSpace(t[|t| - 1])
  {
    MappedKeepsSafe(t);
    StripDotsSafe(t);
    FallbackIsSafe();
    var u := StripDots(t);
    if t[|t| - 1] == DOT {
      StripDotsSafe(t[..|t| - 1]);
      TrimStartSafe(u);
      TrimEndSafe(TrimStart(u));
    } else {
      assert u == t && TrimStart(t) == t;
      TrimEndSafe(t);
    }
  }

  /** Sanitizing again changes a sanitized name exactly when it ends in a dot or in white space. */
  lemma SanitizeTwice(raw: Option<Text>)
    ensures var t := Sanitized(raw);
      Sanitized(Some(t)) == t <==> t[|t| - 1] != DOT && !IsSpace(t[|t| - 1])
  {
    SanitizedIsSafe(raw);
    SanitizedOfSafe(Sanitized(raw));
  }

  lemma SpaceAfterDot()
    ensures Sanitized(Some([97, DOT, 32])) == [97, DOT]
  {
    var t: Text := [97, DOT, 32];
    assert Safe(t);
    MappedKeepsSafe(t);
    assert StripDots(t) == t && TrimStart(t) == t;
    assert t[..2] == [97, DOT] && TrimEnd(t) == TrimEnd([97, DOT]) == [97, DOT];
  }

  lemma DotAtEnd()
    ensures Sanitized(Some([97, DOT])) == [97]
  {
    var t: Text := [97, DOT];
    assert Safe(t);
    MappedKeepsSafe(t);
    assert t[..1] == [97] && StripDots(t) == StripDots([97]) == [97];
    assert TrimStart([97]) == [97] && TrimEnd([97]) == [97];
  }

  /** "a. " becomes "a.", and that becomes "a". */
  lemma SanitizeIsNotIdempotent()
    ensures Sanitized(Some(Sanitized(Some([97, DOT, 32])))) != Sanitized(Some([97, DOT, 32]))
  {
    SpaceAfterDot();
    DotAtEnd();
    hide Sanitized;
    var a: Text, ad: Text := [97], [97, DOT];
    assert |a| != |ad|;
  }

  lemma {:induction false} EndsInLead(s: Text, lead: CodeUnit)
    requires IsLead(lead)
    ensures !WellFormed(s + [lead])
    decreases |s|
  {
    var t := s + [lead];
    if s == [] {
      assert t == [lead];
    } else if StartsPair(t) {
      if |s| >= 2 {
        assert t[2..] == s[2..] + [lead];
        EndsInLead(s[2..], lead);
      }
    } else {
      assert t[1..] == s[1..] + [lead];
      EndsInLead(s[1..], lead);
    }
  }

  // ---------- surrogate pairs ----------

  lemma {:induction false} MappedConcat(s: Text, t: Text)
    ensures Mapped(s + t) == Mapped(s) + Mapped(t)
    decreases |t|
  {
    if t == [] {
      assert s + t == s;
    } else {
      assert (s + t)[..|s + t| - 1] == s + t[..|t| - 1];
      MappedConcat(s, t[..|t| - 1]);
    }
  }

  lemma MappedUnit(c: CodeUnit)
    ensures Mapped([c]) == if IsControl(c) then [] else [if IsReplaced(c) then UNDERSCORE else c]
  {
    assert [c][..0] == [];
  }

  lemma MappedUnitWellFormed(c: CodeUnit)
    requires !IsLead(c) && !IsTrail(c)
    ensures WellFormed(Mapped([c]))
  {
    MappedUnit(c);
    assert [UNDERSCORE][1..] == [] && [c][1..] == [];
  }

  lemma MappedPair(c: CodeUnit, d: CodeUnit)
    requires IsLead(c) && IsTrail(d)
    ensures Mapped([c, d]) == [c, d] && WellFormed([c, d])
  {
    MappedUnit(c);
    MappedUnit(d);
    MappedConcat([c], [d]);
    assert [c] + [d] == [c, d] && [c, d][2..] == [];
  }

  lemma {:induction false} MappedWellFormed(s: Text)
    requires WellFormed(s)
    ensures WellFormed(Mapped(s))
    decreases |s|
  {
    if s == [] {
    } else if StartsPair(s) {
      MappedWellFormed(s[2..]);
      MappedPair(s[0], s[1]);
      MappedConcat([s[0], s[1]], s[2..]);
      assert s == [s[0], s[1]] + s[2..];
      WellFormedConcat([s[0], s[1]], Mapped(s[2..]));
    } else {
      MappedWellFormed(s[1..]);
      MappedUnitWellFormed(s[0]);
      MappedConcat([s[0]], s[1..]);
      assert s == [s[0]] + s[1..];
      WellFormedConcat(Mapped([s[0]]), Mapped(s[1..]));
    }
  }

  /** A prefix of well-formed text is well-formed exactly when it does not end between the halves of a pair. */
  lemma {:induction false} PrefixWellFormed(t: Text, n: nat)
    requires WellFormed(t) && n <= |t|
    ensures WellFormed(t[..n]) <==> !(n > 0 && IsLead(t[n - 1]))
    decreases |t|
  {
    if n == 0 {
    } else if StartsPair(t) {
      if n == 1 {
        assert t[..1] == [t[0]];
      } else {
        PrefixWellFormed(t[2..], n - 2);
        assert t[..n][2..] == t[2..][..n - 2];
      }
    } else {
      PrefixWellFormed(t[1..], n - 1);
      assert t[..n][1..] == t[1..][..n - 1];
    }
  }

  lemma {:induction false} StripDotsWellFormed(t: Text)
    requires WellFormed(t)
    ensures WellFormed(StripDots(t))
    decreases |t|
  {
    if t != [] && t[|t| - 1] == DOT {
      DropLastWellFormed(t);
      StripDotsWellFormed(t[..|t| - 1]);
    }
  }

  /** Without a last unit that is no surrogate, well-formed text stays well-formed. */
  lemma {:induction false} DropLastWellFormed(t: Text)
    requires t != [] && WellFormed(t) && !IsLead(t[|t| - 1]) && !IsTrail(t[|t| - 1])
    ensures WellFormed(t[..|t| - 1])
    decreases |t|
  {
    if StartsPair(t) {
      DropLastWellFormed(t[2..]);
      assert t[..|t| - 1][2..] == t[2..][..|t| - 3];
    } else if |t| > 1 {
      DropLastWellFormed(t[1..]);
      assert t[..|t| - 1][1..] == t[1..][..|t| - 2];
    }
  }

  lemma {:induction false} TrimEndWellFormed(t: Text)
    requires WellFormed(t)
    ensures WellFormed(TrimEnd(t))
    decreases |t|
  {
    if t != [] && IsSpace(t[|t| - 1]) {
      DropLastWellFormed(t);
      TrimEndWellFormed(t[..|t| - 1]);
    }
  }

  lemma {:induction false} TrimStartWellFormed(t: Text)
    requires WellFormed(t)
    ensures WellFormed(TrimStart(t))
    decreases |t|
  {
    if t != [] && IsSpace(t[0]) { TrimStartWellFormed(t[1..]); }
  }

  lemma TrimmedWellFormed(raw: Text)
    requires WellFormed(raw)
    ensures WellFormed(Trimmed(raw))
  {
    MappedWellFormed(raw);
    StripDotsWellFormed(Mapped(raw));
    TrimStartWellFormed(StripDots(Mapped(raw)));
    TrimEndWellFormed(TrimStart(StripDots(Mapped(raw))));
  }

  /**
   The sanitized form of a well-formed name is well-formed exactly when the cut to length
   is not made, or does not fall between the halves of a surrogate pair.
   */
  lemma SanitizedWellFormedIff(raw: Text)
    requires WellFormed(raw)
    ensures var t := Trimmed(raw);
      WellFormed(Sanitized(Some(raw))) <==> !(|t| > MAX_NAME && IsLead(t[MAX_NAME - 1]))
  {
    var t := Trimmed(raw);
    TrimmedWellFormed(raw);
    hide Trimmed;
    if |t| > MAX_NAME {
      PrefixWellFormed(t, MAX_NAME);
    } else {
      FallbackIsSafe();
      forall i | 0 <= i < |FALLBACK| ensures FALLBACK[i] < 0xD800 {}
      PlainIsWellFormed(FALLBACK);
    }
  }

  /** Cutting at 200 code units can split a surrogate pair: the sanitized name is then not well-formed text. */
  lemma TruncationMaySplitAPair(name: Text, lead: CodeUnit, trail: CodeUnit)
    requires Safe(name) && |name| == MAX_NAME - 1 && !IsSpace(name[0]) && IsLead(lead) && IsTrail(trail)
    ensures var t := Sanitized(Some(name + [lead, trail])); t == name + [lead] && !WellFormed(t)
  {
    var raw := name + [lead, trail];
    assert Safe(raw);
    MappedKeepsSafe(raw);
    assert StripDots(raw) == raw && TrimStart(raw) == raw && TrimEnd(raw) == raw;
    assert raw[..MAX_NAME] == name + [lead];
    EndsInLead(name, lead);
  }

  /** What encoding makes of a text: every lone surrogate becomes the replacement character. */
  function Repaired(s: Text): (r: Text)
    ensures |r| == |s|
    decreases |s|
  {
    if s == [] then []
    else if StartsPair(s) then [s[0], s[1]] + Repaired(s[2..])
    else [RepairedCode(s[0])] + Repaired(s[1..])
  }

  const REPLACEMENT: CodeUnit := 0xFFFD

  function RepairedCode(c: CodeUnit): CodeUnit {
    if IsLead(c) || IsTrail(c) then REPLACEMENT else c
  }

  lemma {:induction false} WellFormedIsRepaired(s: Text)
    requires WellFormed(s)
    ensures Repaired(s) == s
    decreases |s|
  {
    if s == [] {
    } else if StartsPair(s) {
      WellFormedIsRepaired(s[2..]);
      assert s == [s[0], s[1]] + s[2..];
    } else {
      WellFormedIsRepaired(s[1..]);
      assert s == [s[0]] + s[1..];
    }
  }

  lemma {:induction false} RepairedIsWellFormed(s: Text)
    ensures WellFormed(Repaired(s))
    decreases |s|
  {
    if s == [] {
    } else if StartsPair(s) {
      RepairedIsWellFormed(s[2..]);
      assert Repaired(s)[2..] == Repaired(s[2..]);
    } else {
      RepairedIsWellFormed(s[1..]);
      assert Repaired(s)[1..] == Repaired(s[1..]);
    }
  }

  lemma RepairedTwice(s: Text)
    ensures Repaired(Repaired(s)) == Repaired(s)
  {
    RepairedIsWellFormed(s);
    WellFormedIsRepaired(Repaired(s));
  }

  lemma {:induction false} RepairedPipeFree(s: Text)
    requires PipeFree(s)
    ensures PipeFree(Repaired(s))
    decreases |s|
  {
    if s == [] {
    } else if StartsPair(s) {
      RepairedPipeFree(s[2..]);
    } else {
      RepairedPipeFree(s[1..]);
    }
  }

  lemma RepairedFirstTwo(s: Text)
    requires StartsPair(s)
    ensures Repaired(s) == [s[0], s[1]] + Repaired(s[2..])
  {}

  lemma RepairedPair(s: Text, t: Text)
    requires StartsPair(s) && Repaired(s[2..] + t) == Repaired(s[2..]) + Repaired(t)
    ensures Repaired(s + t) == Repaired(s) + Repaired(t)
  {
    hide Repaired;
    RepairedFirstTwo(s);
    RepairedFirstTwo(s + t);
    assert (s + t)[2..] == s[2..] + t;
  }

  lemma RepairedUnit(s: Text, t: Text)
    requires s != [] && !StartsPair(s) && !StartsPair(s + t) && Repaired(s[1..] + t) == Repaired(s[1..]) + Repaired(t)
    ensures Repaired(s + t) == Repaired(s) + Repaired(t)
  {
    hide Repaired, StartsPair, RepairedCode;
    RepairedFirst(s);
    RepairedFirst(s + t);
    assert (s + t)[1..] == s[1..] + t;
  }

  lemma RepairedFirst(s: Text)
    requires s != [] && !StartsPair(s)
    ensures Repaired(s) == [RepairedCode(s[0])] + Repaired(s[1..])
  {}

  /** No pair reaches into a text that does not begin with its second half. */
  lemma {:induction false} RepairedConcat(s: Text, t: Text)
    requires t != [] && !IsTrail(t[0])
    ensures Repaired(s + t) == Repaired(s) + Repaired(t)
    decreases |s|
  {
    if s == [] {
      assert s + t == t;
    } else if StartsPair(s) {
      hide Repaired;
      RepairedConcat(s[2..], t);
      RepairedPair(s, t);
    } else {
      hide Repaired;
      RepairedConcat(s[1..], t);
      RepairedUnit(s, t);
    }
  }

  lemma RepairedAtPipe(s: Text, t: Text)
    ensures Repaired(s + [PIPE] + t) == Repaired(s) + [PIPE] + Repaired(t)
  {
    var rest := [PIPE] + t;
    assert s + [PIPE] + t == s + rest;
    RepairedConcat(s, rest);
    assert rest[1..] == t;
    assert Repaired(rest) == [PIPE] + Repaired(t);
  }

  function RepairedAll(parts: seq<Text>): (r: seq<Text>)
    ensures |r| == |parts| && forall i :: 0 <= i < |r| ==> r[i] == Repaired(parts[i])
  {
    seq(|parts|, i requires 0 <= i < |parts| => Repaired(parts[i]))
  }

  lemma {:induction false} RepairedJoin(parts: seq<Text>)
    ensures Repaired(Join(parts)) == Join(RepairedAll(parts))
    decreases |parts|
  {
    if |parts| > 1 {
      RepairedAtPipe(parts[0], Join(parts[1..]));
      RepairedJoin(parts[1..]);
      assert RepairedAll(parts)[1..] == RepairedAll(parts[1..]);
    }
  }

  // ---------- the sniffer ----------

  /** For each leading byte, the values that match. */
  datatype Signature = Signature(mime: Text, pattern: seq<set<Octet>>)

  const PDF: Text := Ascii("application/pdf")
  const PNG: Text := Ascii("image/png")
  const JPEG: Text := Ascii("image/jpeg")
  const GIF: Text := Ascii("image/gif")
  const ZIP: Text := Ascii("application/zip")
  const OCTET_STREAM: Text := Ascii("application/octet-stream")
  const PLAIN: Text := Ascii("text/plain")

  /** The bytes that decode to the same ASCII character: decoding drops the top bit. */
  function Ascii7(c: Octet): (s: set<Octet>)
    requires c < 128
    ensures forall b: Octet :: b in s <==> b % 128 == c
  {
    {c, c + 128}
  }

  const SIGNATURES: seq<Signature> := [
    Signature(PDF, [{0x25}, {0x50}, {0x44}, {0x46}]),
    Signature(PNG, [{0x89}, {0x50}, {0x4e}, {0x47}, {0x0d}, {0x0a}, {0x1a}, {0x0a}]),
    Signature(JPEG, [{0xff}, {0xd8}, {0xff}]),
    Signature(GIF, [Ascii7(0x47), Ascii7(0x49), Ascii7(0x46), Ascii7(0x38), Ascii7(0x37) + Ascii7(0x39), Ascii7(0x61)]),
    Signature(ZIP, [{0x50}, {0x4b}, {0x03, 0x05, 0x07}, {}]),
    Signature(OCTET_STREAM, [Ascii7(0x52), Ascii7(0x49), Ascii7(0x46), Ascii7(0x46)])]

  /** An empty set stands for any byte. */
  predicate Matches(sig: Signature, b: Octets) {
    |b| >= |sig.pattern| && forall i :: 0 <= i < |sig.pattern| ==> sig.pattern[i] == {} || b[i] in sig.pattern[i]
  }

  predicate Printable(b: Octet) {
    b == 9 || b == 10 || b == 13 || 0x20 <= b <= 0x7e
  }

  function PrintableCount(b: Octets): nat {
    if b == [] then 0 else PrintableCount(b[..|b| - 1]) + if Printable(b[|b| - 1]) then 1 else 0
  }

  /** The first 4096 bytes are more than 95 per cent printable. */
  predicate LooksLikeText(b: Octets) {
    var sample := b[..Min(|b|, 4096)];
    |sample| > 0 && 100 * PrintableCount(sample) > 95 * |sample|
  }

  /** What a sniffed type says of the bytes. */
  predicate Sniffs(mime: Text, b: Octets) {
    || (exists k :: 0 <= k < |SIGNATURES| && Matches(SIGNATURES[k], b) && mime == SIGNATURES[k].mime
                    && forall j :: 0 <= j < k ==> !Matches(SIGNATURES[j], b))
    || ((forall k :: 0 <= k < |SIGNATURES| ==> !Matches(SIGNATURES[k], b))
        && mime == if LooksLikeText(b) then PLAIN else OCTET_STREAM)
  }

  predicate StartsWith(b: Octets, s: seq<int>) {
    |b| >= |s| && forall i :: 0 <= i < |s| ==> b[i] == s[i]
  }

  /** The bytes, without their top bits, are those of the text. */
  predicate StartsWithAscii(b: Octets, s: Text) {
    |b| >= |s| && forall i :: 0 <= i < |s| ==> b[i] % 128 == s[i]
  }

  function PrintableAt(b: Octets): set<int> {
    set i | 0 <= i < |b| && (b[i] == 9 || b[i] == 10 || b[i] == 13 || 32 <= b[i] <= 126)
  }

  lemma {:induction false} PrintableCounts(b: Octets)
    ensures PrintableCount(b) == |PrintableAt(b)|
    ensures b == [] ==> PrintableCount(b) == 0
  {
    if b != [] {
      var n := |b| - 1;
      PrintableCounts(b[..n]);
      assert PrintableAt(b) == PrintableAt(b[..n]) + if Printable(b[n]) then {n} else {};
    }
  }

  /** The five types with a signature, and the bytes they stand for. */
  predicate SignatureTells(mime: Text, b: Octets) {
    && (mime == Ascii("application/pdf") <==> StartsWith(b, [0x25, 0x50, 0x44, 0x46]))
    && (mime == Ascii("image/png") <==> StartsWith(b, [0x89, 0x50, 0x4e, 0x47, 0x0d, 0x0a, 0x1a, 0x0a]))
    && (mime == Ascii("image/jpeg") <==> StartsWith(b, [0xff, 0xd8, 0xff]))
    && (mime == Ascii("image/gif") <==> StartsWithAscii(b, Ascii("GIF87a")) || StartsWithAscii(b, Ascii("GIF89a")))
    && (mime == Ascii("application/zip") <==> |b| >= 4 && StartsWith(b, [0x50, 0x4b]) && b[2] in {3, 5, 7})
  }

  predicate HasSignature(b: Octets) {
    exists k :: 0 <= k < |SIGNATURES| && Matches(SIGNATURES[k], b)
  }

  /** Each type, and the bytes it stands for. */
  predicate TypeTells(mime: Text, b: Octets) {
    && SignatureTells(mime, b)
    && (mime == Ascii("text/plain") <==>
      && !HasSignature(b)
      && var sample := b[..Min(|b|, 4096)];
         100 * |PrintableAt(sample)| > 95 * |sample|)
    && (HasSignature(b) || mime == Ascii("text/plain") || mime == Ascii("application/octet-stream"))
  }

  /** The signatures spelled out. */
  lemma SignaturesAre(b: Octets)
    ensures Matches(SIGNATURES[0], b) <==> StartsWith(b, [0x25, 0x50, 0x44, 0x46])
    ensures Matches(SIGNATURES[1], b) <==> StartsWith(b, [0x89, 0x50, 0x4e, 0x47, 0x0d, 0x0a, 0x1a, 0x0a])
    ensures Matches(SIGNATURES[2], b) <==> StartsWith(b, [0xff, 0xd8, 0xff])
    ensures Matches(SIGNATURES[4], b) <==> |b| >= 4 && StartsWith(b, [0x50, 0x4b]) && b[2] in {3, 5, 7}
  {}

  lemma AsciiSignaturesAre(b: Octets)
    ensures Matches(SIGNATURES[3], b) <==> StartsWithAscii(b, Ascii("GIF87a")) || StartsWithAscii(b, Ascii("GIF89a"))
    ensures Matches(SIGNATURES[5], b) <==> StartsWithAscii(b, Ascii("RIFF"))
  {
    assert Ascii("GIF87a") == [0x47, 0x49, 0x46, 0x38, 0x37, 0x61] && Ascii("GIF89a") == [0x47, 0x49, 0x46, 0x38, 0x39, 0x61];
    assert Ascii("RIFF") == [0x52, 0x49, 0x46, 0x46];
  }

  /** No bytes match two signatures. */
  lemma OneSignature(b: Octets, j: nat, k: nat)
    requires j < k < 6 && Matches(SIGNATURES[j], b)
    ensures !Matches(SIGNATURES[k], b)
  {
    FirstByte(b, j);
    FirstByte(b, k);
    hide Matches;
  }

  lemma FirstByte(b: Octets, k: nat)
    requires k < 6
    ensures Matches(SIGNATURES[k], b) ==>
      b != [] && b[0] as int in [{0x25}, {0x89}, {0xff}, {0x47, 0xc7}, {0x50}, {0x52, 0xd2}][k]
  {
    SignaturesAre(b);
    AsciiSignaturesAre(b);
    hide Matches;
    assert Ascii("GIF87a")[0] == 0x47 && Ascii("GIF89a")[0] == 0x47 && Ascii("RIFF")[0] == 0x52;
  }

  lemma TypesDiffer()
    ensures |PDF| == 15 && |PNG| == 9 && |JPEG| == 10 && |GIF| == 9 && |ZIP| == 15 && |OCTET_STREAM| == 24 && |PLAIN| == 10
    ensures PDF[12] != ZIP[12] && PNG[6] != GIF[6] && JPEG[0] != PLAIN[0]
  {}

  lemma SniffTells(mime: Text, b: Octets)
    requires Sniffs(mime, b)
    ensures TypeTells(mime, b)
  {
    hide Matches, Ascii, StartsWith, StartsWithAscii, PrintableAt, PrintableCount;
    TypesDiffer();
    PrintableCounts(b[..Min(|b|, 4096)]);
    if k :| 0 <= k < 6 && Matches(SIGNATURES[k], b) && mime == SIGNATURES[k].mime {
      MatchTells(b, k);
    } else {
      NoMatchTells(mime, b);
    }
  }

  lemma MatchTells(b: Octets, k: nat)
    requires k < 6 && Matches(SIGNATURES[k], b)
    ensures SignatureTells(SIGNATURES[k].mime, b) && SIGNATURES[k].mime != Ascii("text/plain")
  {
    hide Matches, Ascii, StartsWith, StartsWithAscii;
    SignaturesAre(b);
    AsciiSignaturesAre(b);
    TypesDiffer();
    forall j: nat | j < 6 && j != k ensures !Matches(SIGNATURES[j], b) {
      if j < k && Matches(SIGNATURES[j], b) { OneSignature(b, j, k); }
      if k < j { OneSignature(b, k, j); }
    }
    assert Matches(SIGNATURES[0], b) <==> k == 0;
    assert Matches(SIGNATURES[1], b) <==> k == 1;
    assert Matches(SIGNATURES[2], b) <==> k == 2;
    assert Matches(SIGNATURES[3], b) <==> k == 3;
    assert Matches(SIGNATURES[4], b) <==> k == 4;
  }

  lemma NoMatchTells(mime: Text, b: Octets)
    requires (forall k :: 0 <= k < |SIGNATURES| ==> !Matches(SIGNATURES[k], b)) && (mime == PLAIN || mime == OCTET_STREAM)
    ensures SignatureTells(mime, b)
  {
    hide Matches, Ascii, StartsWith, StartsWithAscii;
    SignaturesAre(b);
    AsciiSignaturesAre(b);
    TypesDiffer();
  }

  /** Signatures in order, then the share of printable bytes. */
  method SniffMime(b: Octets) returns (mime: Text)
    ensures Sniffs(mime, b)
    ensures TypeTells(mime, b)
  {
    for k := 0 to |SIGNATURES|
      invariant forall j :: 0 <= j < k ==> !Matches(SIGNATURES[j], b)
    {
      if Matches(SIGNATURES[k], b) {
        SniffTells(SIGNATURES[k].mime, b);
        return SIGNATURES[k].mime;
      }
    }
    var sample := b[..Min(|b|, 4096)];
    var printable := 0;
    for i := 0 to |sample|
      invariant printable == PrintableCount(sample[..i])
    {
      assert sample[..i + 1][..i] == sample[..i];
      if Printable(sample[i]) { printable := printable + 1; }
    }
    assert sample[..|sample|] == sample;
    mime := if |sample| > 0 && 100 * printable > 95 * |sample| then PLAIN else OCTET_STREAM;
    SniffTells(mime, b);
  }

  // ---------- associated data ----------

  predicate PipeFree(t: Text) {
    forall i :: 0 <= i < |t| ==> t[i] != PIPE
  }

  lemma SafeIsPipeFree(t: Text)
    requires Safe(t)
    ensures PipeFree(t)
  {}

  lemma SniffedIsPipeFree(mime: Text, b: Octets)
    requires Sniffs(mime, b)
    ensures PipeFree(mime)
  {
    hide Matches, LooksLikeText, PipeFree, Ascii, Ascii7;
    AsciiPipeFree("application/pdf");
    AsciiPipeFree("image/png");
    AsciiPipeFree("image/jpeg");
    AsciiPipeFree("image/gif");
    AsciiPipeFree("application/zip");
    AsciiPipeFree("application/octet-stream");
    AsciiPipeFree("text/plain");
  }

  lemma AsciiPipeFree(s: string)
    requires forall i :: 0 <= i < |s| ==> s[i] < 128 as char
    requires '|' !in s
    ensures PipeFree(Ascii(s))
  {
    forall i | 0 <= i < |s| ensures Ascii(s)[i] != PIPE {
      assert s[i] in s;
    }
  }

  /** `parts.join('|')`. */
  function Join(parts: seq<Text>): Text {
    if parts == [] then []
    else if |parts| == 1 then parts[0]
    else parts[0] + [PIPE] + Join(parts[1..])
  }

  /** Everything before the first pipe. */
  function FirstPipe(t: Text): (n: nat)
    ensures n <= |t| && PipeFree(t[..n]) && (n < |t| ==> t[n] == PIPE)
  {
    if t == [] || t[0] == PIPE then 0
    else
      var n := FirstPipe(t[1..]);
      assert t[..n + 1] == [t[0]] + t[1..][..n];
      n + 1
  }

  lemma {:induction false} FirstPipeIs(t: Text, rest: Text)
    requires PipeFree(t)
    ensures FirstPipe(t + [PIPE] + rest) == |t|
    ensures FirstPipe(t) == |t|
    decreases |t|
  {
    if t == [] {
      assert t + [PIPE] + rest == [PIPE] + rest;
    } else {
      assert (t + [PIPE] + rest)[1..] == t[1..] + [PIPE] + rest;
      FirstPipeIs(t[1..], rest);
    }
  }

  /** A pipe-free first part can be told from the rest. */
  lemma JoinPeels(a: seq<Text>, b: seq<Text>)
    requires |a| >= 2 && |b| >= 2 && PipeFree(a[0]) && PipeFree(b[0])
    ensures Join(a) == Join(b) <==> a[0] == b[0] && Join(a[1..]) == Join(b[1..])
  {
    FirstPipeIs(a[0], Join(a[1..]));
    FirstPipeIs(b[0], Join(b[1..]));
    var n := |a[0]|;
    if Join(a) == Join(b) {
      assert Join(a)[..n] == a[0] && Join(b)[..n] == b[0];
      assert Join(a)[n + 1..] == Join(a[1..]) && Join(b)[n + 1..] == Join(b[1..]);
    }
  }

  /** Pipe-free parts can be told apart after joining. */
  lemma {:induction false} JoinInjective(a: seq<Text>, b: seq<Text>)
    requires a != [] && b != [] && Join(a) == Join(b)
    requires (forall i :: 0 <= i < |a| ==> PipeFree(a[i])) && (forall i :: 0 <= i < |b| ==> PipeFree(b[i]))
    ensures a == b
    decreases |a|
  {
    if |a| == 1 || |b| == 1 {
      FirstPipeIs(a[0], if |a| == 1 then [] else Join(a[1..]));
      FirstPipeIs(b[0], if |b| == 1 then [] else Join(b[1..]));
      assert |a| == 1 ==> |Join(a)| == |a[0]|;
      assert |b| == 1 ==> |Join(b)| == |b[0]|;
    } else {
      JoinPeels(a, b);
      JoinInjective(a[1..], b[1..]);
      assert a == [a[0]] + a[1..] && b == [b[0]] + b[1..];
    }
  }

  // ---------- counting pipes ----------

  function Pipes(t: Text): nat {
    if t == [] then 0 else (if t[0] == PIPE then 1 else 0) + Pipes(t[1..])
  }

  lemma {:induction false} PipesConcat(s: Text, t: Text)
    ensures Pipes(s + t) == Pipes(s) + Pipes(t)
    decreases |s|
  {
    if s == [] {
      assert s + t == t;
    } else {
      PipesConcat(s[1..], t);
      assert (s + t)[1..] == s[1..] + t;
    }
  }

  lemma {:induction false} PipeFreeIff(t: Text)
    ensures PipeFree(t) <==> Pipes(t) == 0
    decreases |t|
  {
    if t != [] {
      PipeFreeIff(t[1..]);
      assert t == [t[0]] + t[1..];
    }
  }

  function PipesIn(parts: seq<Text>): nat {
    if parts == [] then 0 else Pipes(parts[0]) + PipesIn(parts[1..])
  }

  lemma {:induction false} PipesJoin(parts: seq<Text>)
    requires parts != []
    ensures Pipes(Join(parts)) == PipesIn(parts) + |parts| - 1
    decreases |parts|
  {
    if |parts| > 1 {
      PipesJoin(parts[1..]);
      PipesConcat(parts[0], [PIPE]);
      PipesConcat(parts[0] + [PIPE], Join(parts[1..]));
    }
  }

  lemma {:induction false} NoPipesIn(parts: seq<Text>)
    ensures PipesIn(parts) == 0 <==> forall i :: 0 <= i < |parts| ==> PipeFree(parts[i])
    decreases |parts|
  {
    if parts != [] {
      NoPipesIn(parts[1..]);
      PipeFreeIff(parts[0]);
      assert parts == [parts[0]] + parts[1..];
    }
  }

  /** As many parts, whose text equals that of pipe-free ones, are the same parts. */
  lemma JoinDecides(a: seq<Text>, b: seq<Text>)
    requires |a| == |b| > 0 && forall i :: 0 <= i < |a| ==> PipeFree(a[i])
    ensures Join(a) == Join(b) <==> a == b
  {
    if Join(a) == Join(b) {
      PipesJoin(a);
      PipesJoin(b);
      NoPipesIn(a);
      NoPipesIn(b);
      JoinInjective(a, b);
    }
  }

  /** What ciphertext is bound to. */
  datatype Binding = Binding(aadVersion: int, bundleId: Text, attachmentId: Text, mimeType: Text, displayFilename: Text)

  const ATTACHMENT: Text := Ascii("attachment")
  const V2: Text := Ascii("v2")

  function AadParts(b: Binding): seq<Text> {
    if b.aadVersion >= 2 then [ATTACHMENT, V2, b.bundleId, b.attachmentId, b.mimeType, b.displayFilename]
    else [ATTACHMENT, b.bundleId, b.attachmentId]
  }

  function BuildAttachmentAad(b: Binding): Text {
    Join(AadParts(b))
  }

  predicate PartsPipeFree(b: Binding) {
    PipeFree(b.bundleId) && PipeFree(b.attachmentId) && PipeFree(b.mimeType) && PipeFree(b.displayFilename)
  }

  /** What a version looks at agrees. */
  predicate SameBinding(a: Binding, b: Binding) {
    && (a.aadVersion >= 2 <==> b.aadVersion >= 2)
    && a.bundleId == b.bundleId && a.attachmentId == b.attachmentId
    && (a.aadVersion >= 2 ==> a.mimeType == b.mimeType && a.displayFilename == b.displayFilename)
  }

  /**
   A row of the first version whose bundle id repeats what a row of the second version
   binds, for an attachment whose name is the id.
   */
  predicate Repeats(a: Binding, b: Binding) {
    && a.aadVersion >= 2 && b.aadVersion < 2 && b.attachmentId == a.displayFilename
    && b.bundleId == Join([V2, a.bundleId, a.attachmentId, a.mimeType])
  }

  predicate SameAad(a: Binding, b: Binding) {
    SameBinding(a, b) || Repeats(a, b)
  }

  lemma SameVersionDecides(a: Binding, b: Binding)
    requires PartsPipeFree(a) && (a.aadVersion >= 2 <==> b.aadVersion >= 2)
    ensures BuildAttachmentAad(a) == BuildAttachmentAad(b) <==> SameBinding(a, b)
  {
    AsciiPipeFree("attachment");
    AsciiPipeFree("v2");
    hide Ascii, Join, PipeFree;
    var x, y := AadParts(a), AadParts(b);
    JoinDecides(x, y);
    if x == y { assert forall i :: 0 <= i < |x| ==> x[i] == y[i]; }
    if a.aadVersion >= 2 {
      assert x == y <==> x[2] == y[2] && x[3] == y[3] && x[4] == y[4] && x[5] == y[5];
    } else {
      assert x == y <==> x[1] == y[1] && x[2] == y[2];
    }
  }

  /** The last part can be told from what is before it. */
  lemma LastPipe(s: Text, x: Text, t: Text, y: Text)
    requires PipeFree(x) && PipeFree(y) && s + [PIPE] + x == t + [PIPE] + y
    ensures s == t && x == y
  {
    var all := s + [PIPE] + x;
    assert all[|s|] == PIPE && all[|t|] == PIPE;
    assert forall i :: |s| < i < |all| ==> all[i] == x[i - |s| - 1];
    assert forall i :: |t| < i < |all| ==> all[i] == y[i - |t| - 1];
    assert |s| == |t|;
    assert s == all[..|s|] && t == all[..|t|] && x == all[|s| + 1..] && y == all[|t| + 1..];
  }

  lemma JoinTwo(x: Text, y: Text)
    ensures Join([x, y]) == x + [PIPE] + y
  {
    assert [x, y][1..] == [y];
  }

  lemma {:induction false} JoinLast(parts: seq<Text>, last: Text)
    requires parts != []
    ensures Join(parts + [last]) == Join(parts) + [PIPE] + last
    decreases |parts|
  {
    if |parts| == 1 {
      assert parts + [last] == [parts[0], last];
      JoinTwo(parts[0], last);
    } else {
      JoinLast(parts[1..], last);
      assert (parts + [last])[1..] == parts[1..] + [last];
    }
  }

  /** A second-version text against a first-version one. */
  lemma DowngradeDecides(a: Binding, b: Binding)
    requires PartsPipeFree(a) && PipeFree(b.attachmentId) && a.aadVersion >= 2 && b.aadVersion < 2
    ensures BuildAttachmentAad(a) == BuildAttachmentAad(b) <==> Repeats(a, b)
  {
    AsciiPipeFree("attachment");
    var head := [V2, a.bundleId, a.attachmentId, a.mimeType];
    var x, y := AadParts(a), AadParts(b);
    assert x[1..] == head + [a.displayFilename] && y[1..] == [b.bundleId, b.attachmentId];
    hide Ascii, Join;
    JoinPeels(x, y);
    JoinLast(head, a.displayFilename);
    JoinTwo(b.bundleId, b.attachmentId);
    if Join(x[1..]) == Join(y[1..]) { LastPipe(Join(head), a.displayFilename, b.bundleId, b.attachmentId); }
  }

  lemma UpgradeDiffers(a: Binding, b: Binding)
    requires PartsPipeFree(a) && a.aadVersion < 2 && b.aadVersion >= 2
    ensures BuildAttachmentAad(a) != BuildAttachmentAad(b)
  {
    AsciiPipeFree("attachment");
    hide Ascii, Join, PipeFree;
    NoPipesIn(AadParts(a));
    PipesJoin(AadParts(a));
    PipesJoin(AadParts(b));
  }

  /**
   For pipe-free parts, whatever a second row holds beside a pipe-free id: the two strings
   are equal exactly when the rows bind the same, or the second repeats the first in the
   older form.
   */
  lemma AadDecides(a: Binding, b: Binding)
    requires PartsPipeFree(a) && PipeFree(b.attachmentId)
    ensures BuildAttachmentAad(a) == BuildAttachmentAad(b) <==> SameAad(a, b)
  {
    hide BuildAttachmentAad, PartsPipeFree, PipeFree;
    if a.aadVersion >= 2 <==> b.aadVersion >= 2 {
      SameVersionDecides(a, b);
    } else if a.aadVersion >= 2 {
      DowngradeDecides(a, b);
    } else {
      UpgradeDiffers(a, b);
    }
  }

  /** It happens: to every second-version row whose name is its id, there is such a row of the first version. */
  lemma OlderFormRepeats(a: Binding, mimeType: Text, displayFilename: Text)
    requires PartsPipeFree(a) && a.aadVersion >= 2 && a.displayFilename == a.attachmentId
    ensures var b := Binding(1, Join([V2, a.bundleId, a.attachmentId, a.mimeType]), a.attachmentId, mimeType, displayFilename);
      BuildAttachmentAad(a) == BuildAttachmentAad(b) && !SameBinding(a, b)
  {
    assert PipeFree(a.attachmentId);
    hide BuildAttachmentAad, PartsPipeFree, PipeFree, Join;
    DowngradeDecides(a, Binding(1, Join([V2, a.bundleId, a.attachmentId, a.mimeType]), a.attachmentId, mimeType, displayFilename));
  }

  /** The two forms of the text, written out. */
  lemma AadTexts(b: Binding)
    ensures BuildAttachmentAad(b) ==
            if b.aadVersion >= 2 then
              Ascii("attachment|v2|") + b.bundleId + Ascii("|") + b.attachmentId + Ascii("|") + b.mimeType + Ascii("|") + b.displayFilename
            else Ascii("attachment|") + b.bundleId + Ascii("|") + b.attachmentId
  {
    AadPrefixes();
    var parts := AadParts(b);
    if b.aadVersion >= 2 {
      JoinSix(parts[0], parts[1], parts[2], parts[3], parts[4], parts[5]);
    } else {
      JoinThree(parts[0], parts[1], parts[2]);
    }
  }

  lemma AadPrefixes()
    ensures Ascii("attachment|v2|") == ATTACHMENT + [PIPE] + V2 + [PIPE] && Ascii("attachment|") == ATTACHMENT + [PIPE]
    ensures Ascii("|") == [PIPE] && Ascii("attach-tok|v1|") == ATTACH_TOK + [PIPE] + V1 + [PIPE]
  {}

  lemma JoinThree(a: Text, b: Text, c: Text)
    ensures Join([a, b, c]) == a + [PIPE] + b + [PIPE] + c
  {
    assert [a, b, c][1..] == [b, c] && [b, c][1..] == [c];
    assert Join([b, c]) == b + [PIPE] + c;
    assert a + [PIPE] + (b + [PIPE] + c) == a + [PIPE] + b + [PIPE] + c;
  }

  lemma JoinFour(a: Text, b: Text, c: Text, d: Text)
    ensures Join([a, b, c, d]) == a + [PIPE] + b + [PIPE] + c + [PIPE] + d
  {
    assert [a, b, c, d][1..] == [b, c, d];
    JoinThree(b, c, d);
    hide Join;
    assert Join([a, b, c, d]) == a + [PIPE] + Join([b, c, d]) by { JoinHead([a, b, c, d]); }
    assert a + [PIPE] + (b + [PIPE] + c + [PIPE] + d) == a + [PIPE] + b + [PIPE] + c + [PIPE] + d;
  }

  lemma JoinHead(parts: seq<Text>)
    requires |parts| >= 2
    ensures Join(parts) == parts[0] + [PIPE] + Join(parts[1..])
  {}

  lemma JoinSix(a: Text, b: Text, c: Text, d: Text, e: Text, f: Text)
    ensures Join([a, b, c, d, e, f]) == a + [PIPE] + b + [PIPE] + c + [PIPE] + d + [PIPE] + e + [PIPE] + f
  {
    hide Join;
    var four := [c, d, e, f];
    JoinFour(c, d, e, f);
    JoinHead([a, b, c, d, e, f]);
    JoinHead([b, c, d, e, f]);
    assert [a, b, c, d, e, f][1..] == [b, c, d, e, f] && [b, c, d, e, f][1..] == four;
    var tail := c + [PIPE] + d + [PIPE] + e + [PIPE] + f;
    assert a + [PIPE] + (b + [PIPE] + tail) == (a + [PIPE] + b + [PIPE]) + tail;
  }

  /** The text a re-sealed key is bound to. */
  lemma SealAadText(i: Text, a: Text)
    ensures SealAad(i, a) == Ascii("attach-tok|v1|") + i + Ascii("|") + a
  {
    AadPrefixes();
    JoinFour(ATTACH_TOK, V1, i, a);
    hide Join, Ascii;
  }

  /** The binding of which only the encoded form is left. */
  function RepairedBinding(b: Binding): Binding {
    Binding(b.aadVersion, Repaired(b.bundleId), Repaired(b.attachmentId), Repaired(b.mimeType), Repaired(b.displayFilename))
  }

  lemma RepairedAscii(s: string)
    requires forall i :: 0 <= i < |s| ==> s[i] < 128 as char
    ensures Repaired(Ascii(s)) == Ascii(s)
  {
    PlainIsWellFormed(Ascii(s));
    WellFormedIsRepaired(Ascii(s));
  }

  lemma RepairedThree(a: Text, b: Text, d: Text)
    requires Repaired(a) == a
    ensures RepairedAll([a, b, d]) == [a, Repaired(b), Repaired(d)]
  {
    hide Repaired;
  }

  lemma RepairedSix(a: Text, v: Text, b: Text, d: Text, e: Text, f: Text)
    requires Repaired(a) == a && Repaired(v) == v
    ensures RepairedAll([a, v, b, d, e, f]) == [a, v, Repaired(b), Repaired(d), Repaired(e), Repaired(f)]
  {
    hide Repaired;
  }

  lemma RepairedParts(b: Binding)
    ensures RepairedAll(AadParts(b)) == AadParts(RepairedBinding(b))
  {
    RepairedAscii("attachment");
    RepairedAscii("v2");
    hide Repaired, RepairedAll, Ascii;
    RepairedThree(ATTACHMENT, b.bundleId, b.attachmentId);
    RepairedSix(ATTACHMENT, V2, b.bundleId, b.attachmentId, b.mimeType, b.displayFilename);
  }

  /** Encoded associated data agree exactly when what is bound agrees in its encoded form. */
  lemma EncodedAadDecides(a: Binding, b: Binding)
    requires PartsPipeFree(a) && PipeFree(b.attachmentId)
    ensures Repaired(BuildAttachmentAad(a)) == Repaired(BuildAttachmentAad(b))
      <==> SameAad(RepairedBinding(a), RepairedBinding(b))
  {
    hide SameAad, BuildAttachmentAad, Repaired;
    EncodedAad(a);
    EncodedAad(b);
    RepairedPartsPipeFree(a);
    RepairedPipeFree(b.attachmentId);
    AadDecides(RepairedBinding(a), RepairedBinding(b));
  }

  lemma EncodedAad(b: Binding)
    ensures Repaired(BuildAttachmentAad(b)) == BuildAttachmentAad(RepairedBinding(b))
  {
    RepairedJoin(AadParts(b));
    RepairedParts(b);
  }

  lemma RepairedPartsPipeFree(b: Binding)
    requires PartsPipeFree(b)
    ensures PartsPipeFree(RepairedBinding(b))
  {
    hide PipeFree;
    RepairedPipeFree(b.bundleId);
    RepairedPipeFree(b.attachmentId);
    RepairedPipeFree(b.mimeType);
    RepairedPipeFree(b.displayFilename);
  }

  const ATTACH_TOK: Text := Ascii("attach-tok")
  const V1: Text := Ascii("v1")

  /** The associated data of a re-sealed key. */
  function SealAad(tokenIndex: Text, attachmentId: Text): Text {
    Join([ATTACH_TOK, V1, tokenIndex, attachmentId])
  }

  /** The same of re-sealed keys, whatever the ids. */
  lemma SealAadDecides(i: Text, a: Text, j: Text, b: Text)
    requires PipeFree(i) && PipeFree(j)
    ensures SealAad(i, a) == SealAad(j, b) <==> i == j && a == b
  {
    AsciiPipeFree("attach-tok");
    AsciiPipeFree("v1");
    hide Ascii, PipeFree;
    var x, y := [ATTACH_TOK, V1, i, a], [ATTACH_TOK, V1, j, b];
    JoinPeels(x, y);
    JoinPeels(x[1..], y[1..]);
    JoinPeels(x[2..], y[2..]);
    assert x[1..][1..] == x[2..] && y[1..][1..] == y[2..];
    assert x[2..][1..] == [a] && y[2..][1..] == [b];
  }

  lemma EncodedSealAadDecides(i: Text, a: Text, j: Text, b: Text)
    requires PipeFree(i) && PipeFree(j)
    ensures Repaired(SealAad(i, a)) == Repaired(SealAad(j, b)) <==> Repaired(i) == Repaired(j) && Repaired(a) == Repaired(b)
  {
    hide SealAad, Repaired, PipeFree;
    EncodedSealAad(i, a);
    EncodedSealAad(j, b);
    RepairedPipeFree(i);
    RepairedPipeFree(j);
    SealAadDecides(Repaired(i), Repaired(a), Repaired(j), Repaired(b));
  }

  lemma RepairedFour(a: Text, b: Text, i: Text, j: Text)
    requires Repaired(a) == a && Repaired(b) == b
    ensures RepairedAll([a, b, i, j]) == [a, b, Repaired(i), Repaired(j)]
  {
    hide Repaired;
  }

  lemma EncodedSealAad(i: Text, a: Text)
    ensures Repaired(SealAad(i, a)) == SealAad(Repaired(i), Repaired(a))
  {
    RepairedAscii("attach-tok");
    RepairedAscii("v1");
    hide Repaired, Join, Ascii, RepairedAll;
    RepairedFour(ATTACH_TOK, V1, i, a);
    RepairedJoin([ATTACH_TOK, V1, i, a]);
  }
}
