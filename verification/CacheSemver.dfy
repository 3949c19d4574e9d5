/** Version keys: decimal text that must order like numbers, following SemVer 2.0.0 sections 9 to 11. */
module CacheSemver {
  import opened Options
  import opened Ordering

  predicate IsDigit(c: char) {
    '0' <= c <= '9'
  }

  predicate AllDigits(s: string) {
    forall i :: 0 <= i < |s| ==> IsDigit(s[i])
  }

  predicate IsDecimal(s: string) {
    s != "" && AllDigits(s)
  }

  /** A decimal without leading zeros. */
  predicate Canonical(s: string) {
    IsDecimal(s) && (|s| == 1 || s[0] != '0')
  }

  predicate IdentifierText(s: string) {
    s != "" && forall i :: 0 <= i < |s| ==>
      IsDigit(s[i]) || 'a' <= s[i] <= 'z' || 'A' <= s[i] <= 'Z' || s[i] == '-'
  }

  /** The groups that the version pattern captures; an absent group is the empty sequence. */
  datatype Version = Version(major: string, minor: string, patch: string, pre: seq<string>, build: seq<string>)

  /** What the version pattern matches. */
  predicate Grammar(v: Version) {
    && Canonical(v.major) && Canonical(v.minor) && Canonical(v.patch)
    && (forall i :: 0 <= i < |v.pre| ==> IdentifierText(v.pre[i]))
    && (forall i :: 0 <= i < |v.build| ==> IdentifierText(v.build[i]))
  }

  // ---------- the numbers that the texts denote ----------

  function Digit(c: char): (d: nat)
    requires IsDigit(c)
    ensures d < 10
  {
    c as int - '0' as int
  }

  function Value(s: string): nat
    requires AllDigits(s)
  {
    if s == "" then 0 else 10 * Value(s[..|s| - 1]) + Digit(s[|s| - 1])
  }

  function Power10(n: nat): (p: nat)
    ensures p > 0
  {
    if n == 0 then 1 else 10 * Power10(n - 1)
  }

  function DigitChar(d: nat): (c: char)
    requires d < 10
    ensures IsDigit(c) && Digit(c) == d && (c == '0' <==> d == 0)
  {
    (d + '0' as int) as char
  }

  /** The text of a number. */
  function DecimalText(n: nat): (s: string)
    ensures Canonical(s) && Value(s) == n
    ensures n > 0 ==> s[0] != '0'
  {
    if n < 10 then
      var s := [DigitChar(n)];
      assert s[..0] == "";
      s
    else
      var init := DecimalText(n / 10);
      var s := init + [DigitChar(n % 10)];
      assert s[..|s| - 1] == init;
      s
  }

  lemma TenTimes(n: nat, p: nat)
    ensures n * (10 * p) == 10 * (n * p)
  {
  }

  lemma {:induction false} ValueHead(s: string)
    requires IsDecimal(s)
    ensures Value(s) == Digit(s[0]) * Power10(|s| - 1) + Value(s[1..])
  {
    if |s| == 1 {
      assert s[..0] == "" && s[1..] == "";
    } else {
      var init := s[..|s| - 1];
      ValueHead(init);
      assert s[1..][..|s| - 2] == init[1..];
      assert init[0] == s[0] && s[1..][|s| - 2] == s[|s| - 1];
      TenTimes(Digit(s[0]), Power10(|s| - 2));
    }
  }

  lemma {:induction false} ValueBound(s: string)
    requires AllDigits(s)
    ensures Value(s) < Power10(|s|)
  {
    if s != "" {
      ValueBound(s[..|s| - 1]);
    }
  }

  lemma {:induction false} MultiplyStep(d: nat, e: nat, p: nat)
    requires d < e
    ensures d * p + p <= e * p
  {
    assert e * p == (e - 1) * p + p;
    if d < e - 1 {
      MultiplyStep(d, e - 1, p);
    }
  }

  lemma {:induction false} SameLengthOrder(a: string, b: string)
    requires AllDigits(a) && AllDigits(b) && |a| == |b|
    ensures CompareText(a, b) == CompareInt(Value(a), Value(b))
  {
    if a != "" {
      ValueHead(a);
      ValueHead(b);
      ValueBound(a[1..]);
      ValueBound(b[1..]);
      SameLengthOrder(a[1..], b[1..]);
      var p := Power10(|a| - 1);
      if Digit(a[0]) < Digit(b[0]) {
        MultiplyStep(Digit(a[0]), Digit(b[0]), p);
      } else if Digit(b[0]) < Digit(a[0]) {
        MultiplyStep(Digit(b[0]), Digit(a[0]), p);
      }
    }
  }

  lemma {:induction false} Power10Grows(m: nat, n: nat)
    requires m <= n
    ensures Power10(m) <= Power10(n)
  {
    if m < n {
      Power10Grows(m, n - 1);
    }
  }

  lemma ShorterIsSmaller(a: string, b: string)
    requires Canonical(a) && Canonical(b) && |a| < |b|
    ensures Value(a) < Value(b)
  {
    ValueBound(a);
    ValueHead(b);
    Power10Grows(|a|, |b| - 1);
    MultiplyStep(0, Digit(b[0]), Power10(|b| - 1));
  }

  /** On decimals without leading zeros, of any length, (length, text) order is numeric order. */
  lemma DecimalOrder(a: string, b: string)
    requires Canonical(a) && Canonical(b)
    ensures Then(CompareInt(|a|, |b|), CompareText(a, b)) == CompareInt(Value(a), Value(b))
  {
    if |a| == |b| {
      SameLengthOrder(a, b);
    } else if |a| < |b| {
      ShorterIsSmaller(a, b);
    } else {
      ShorterIsSmaller(b, a);
    }
  }

  /** Two different decimals without leading zeros denote different numbers. */
  lemma ValueInjective(a: string, b: string)
    requires Canonical(a) && Canonical(b) && Value(a) == Value(b)
    ensures a == b
  {
    DecimalOrder(a, b);
    CompareTextFacts(a, b);
  }

  // ---------- keys ----------

  const U64_MAX: nat := 0xFFFF_FFFF_FFFF_FFFF

  const U64_TEXT := "1844674407" + "3709551615"

  lemma {:induction false} ValueConcat(a: string, b: string)
    requires AllDigits(a) && AllDigits(b)
    ensures Value(a + b) == Value(a) * Power10(|b|) + Value(b)
  {
    if b == "" {
      assert a + b == a;
    } else {
      var init := b[..|b| - 1];
      ValueConcat(a, init);
      assert (a + b)[..|a + b| - 1] == a + init;
      TenTimes(Value(a), Power10(|init|));
    }
  }

  lemma FiveDigits(s: string)
    requires AllDigits(s) && |s| == 5
    ensures Value(s) ==
      10000 * Digit(s[0]) + 1000 * Digit(s[1]) + 100 * Digit(s[2]) + 10 * Digit(s[3]) + Digit(s[4])
  {
    assert s[..4][..3] == s[..3] && s[..3][..2] == s[..2] && s[..2][..1] == s[..1] && s[..1][..0] == "";
    assert Value(s[..1]) == Digit(s[0]);
    assert Value(s[..2]) == 10 * Digit(s[0]) + Digit(s[1]);
    assert Value(s[..3]) == 100 * Digit(s[0]) + 10 * Digit(s[1]) + Digit(s[2]);
  }

  lemma TenDigits(s: string)
    requires AllDigits(s) && |s| == 10
    ensures Value(s) == 100000 * Value(s[..5]) + Value(s[5..])
  {
    ValueConcat(s[..5], s[5..]);
    assert s == s[..5] + s[5..];
  }

  lemma HighHalf()
    ensures AllDigits("1844674407") && Value("1844674407") == 1844674407
  {
    var s := "1844674407";
    TenDigits(s);
    FiveDigits(s[..5]);
    FiveDigits(s[5..]);
  }

  lemma LowHalf()
    ensures AllDigits("3709551615") && Value("3709551615") == 3709551615
  {
    var s := "3709551615";
    TenDigits(s);
    FiveDigits(s[..5]);
    FiveDigits(s[5..]);
  }

  lemma TenBillion(n: nat, p: nat)
    requires p == 10000000000
    ensures n * p == 10000000000 * n
  {
  }

  lemma TwentyDigits(high: string, low: string)
    requires AllDigits(high) && AllDigits(low) && |low| == 10
    ensures Value(high + low) == 10000000000 * Value(high) + Value(low)
  {
    ValueConcat(high, low);
    var p := Power10(10);
    assert p == 10000000000;
    TenBillion(Value(high), p);
  }

  /** The limit's text denotes 2^64 - 1. */
  lemma LimitText()
    ensures Canonical(U64_TEXT) && Value(U64_TEXT) == U64_MAX
  {
    HighHalf();
    LowHalf();
    TwentyDigits("1844674407", "3709551615");
  }

  /** The range test on the text of a core number. */
  predicate FitsU64(component: string) {
    !(|component| > |U64_TEXT| || (|component| == |U64_TEXT| && CompareText(component, U64_TEXT).Greater?))
  }

  /** The text test accepts exactly the numbers up to 2^64 - 1. */
  lemma FitsU64Exactly(component: string)
    requires Canonical(component)
    ensures FitsU64(component) <==> Value(component) <= U64_MAX
  {
    LimitText();
    DecimalOrder(component, U64_TEXT);
  }

  datatype IdentifierKey = IdentifierKey(kind: int, digits: int, text: string, raw: int)

  datatype VersionKey = VersionKey(major: nat, minor: nat, patch: nat, release: int,
                                   pre: seq<IdentifierKey>, build: seq<IdentifierKey>)

  function PreKey(value: string): IdentifierKey {
    if IsDecimal(value) then IdentifierKey(0, |value|, value, 0) else IdentifierKey(1, 0, value, 0)
  }

  function StripZeros(value: string): string {
    if value != "" && value[0] == '0' then StripZeros(value[1..]) else value
  }

  function BuildKey(value: string): IdentifierKey {
    if !IsDecimal(value) then IdentifierKey(1, 0, value, 0)
    else
      var significant := StripZeros(value);
      IdentifierKey(0, |significant|, significant, |value|)
  }

  predicate LeadingZero(part: string) {
    IsDecimal(part) && |part| > 1 && part[0] == '0'
  }

  function KeysOf(parts: seq<string>, key: string -> IdentifierKey): (keys: seq<IdentifierKey>)
    ensures |keys| == |parts|
    ensures forall i :: 0 <= i < |parts| ==> keys[i] == key(parts[i])
  {
    seq(|parts|, i requires 0 <= i < |parts| => key(parts[i]))
  }

  /** An absent build group is keyed as one empty identifier. */
  function BuildParts(v: Version): seq<string> {
    if v.build == [] then [""] else v.build
  }

  /** The tests that a version has to pass. */
  predicate Valid(v: Version) {
    && Grammar(v)
    && FitsU64(v.major) && FitsU64(v.minor) && FitsU64(v.patch)
    && !exists i :: 0 <= i < |v.pre| && LeadingZero(v.pre[i])
  }

  function KeyOf(v: Version): VersionKey
    requires Grammar(v)
  {
    VersionKey(Value(v.major), Value(v.minor), Value(v.patch),
               if v.pre == [] then 1 else 0, KeysOf(v.pre, PreKey), KeysOf(BuildParts(v), BuildKey))
  }

  function Key(v: Version): Option<VersionKey> {
    if Valid(v) then Some(KeyOf(v)) else None
  }

  function CompareIdentifier(a: IdentifierKey, b: IdentifierKey): Order {
    Then(CompareInt(a.kind, b.kind),
         Then(CompareInt(a.digits, b.digits), Then(CompareText(a.text, b.text), CompareInt(a.raw, b.raw))))
  }

  /** The comparison of the first four components of two keys. */
  function CompareCore(a: VersionKey, b: VersionKey): Order {
    Then(CompareInt(a.major, b.major),
         Then(CompareInt(a.minor, b.minor),
              Then(CompareInt(a.patch, b.patch),
                   Then(CompareInt(a.release, b.release), CompareSeq(a.pre, b.pre, CompareIdentifier)))))
  }

  function CompareKey(a: VersionKey, b: VersionKey): Order {
    Then(CompareCore(a, b), CompareSeq(a.build, b.build, CompareIdentifier))
  }

  // ---------- SemVer 2.0.0 ----------

  /** Sections 2 and 9: numeric prerelease identifiers have no leading zeros. */
  lemma ValidExactly(v: Version)
    ensures Valid(v) <==>
      && Grammar(v)
      && Value(v.major) <= U64_MAX && Value(v.minor) <= U64_MAX && Value(v.patch) <= U64_MAX
      && forall i :: 0 <= i < |v.pre| && IsDecimal(v.pre[i]) ==> Canonical(v.pre[i])
  {
    if Grammar(v) {
      FitsU64Exactly(v.major);
      FitsU64Exactly(v.minor);
      FitsU64Exactly(v.patch);
      forall i | 0 <= i < |v.pre|
        ensures LeadingZero(v.pre[i]) <==> IsDecimal(v.pre[i]) && !Canonical(v.pre[i])
      {
      }
    }
  }

  /** Section 11.4: numeric identifiers compare as numbers and precede the others, which compare as ASCII text. */
  function IdentifierPrecedence(a: string, b: string): Order {
    if IsDecimal(a) && IsDecimal(b) then CompareInt(Value(a), Value(b))
    else if IsDecimal(a) then Less
    else if IsDecimal(b) then Greater
    else CompareText(a, b)
  }

  /** Section 11.4: the first difference decides, and a larger set of fields wins a tie. */
  function FieldsPrecedence(a: seq<string>, b: seq<string>): Order {
    if a == [] && b == [] then Equal
    else if a == [] then Less
    else if b == [] then Greater
    else Then(IdentifierPrecedence(a[0], b[0]), FieldsPrecedence(a[1..], b[1..]))
  }

  /** Section 11: numeric core first; a prerelease precedes its release; build metadata does not count. */
  function Precedence(v: Version, w: Version): Order
    requires Grammar(v) && Grammar(w)
  {
    Then(CompareInt(Value(v.major), Value(w.major)),
         Then(CompareInt(Value(v.minor), Value(w.minor)),
              Then(CompareInt(Value(v.patch), Value(w.patch)),
                   if v.pre == [] && w.pre == [] then Equal
                   else if v.pre == [] then Greater
                   else if w.pre == [] then Less
                   else FieldsPrecedence(v.pre, w.pre))))
  }

  lemma IdentifierPrecedenceMatches(a: string, b: string)
    requires IsDecimal(a) ==> Canonical(a)
    requires IsDecimal(b) ==> Canonical(b)
    ensures CompareIdentifier(PreKey(a), PreKey(b)) == IdentifierPrecedence(a, b)
  {
    if IsDecimal(a) && IsDecimal(b) {
      DecimalOrder(a, b);
    }
  }

  lemma {:induction false} FieldsPrecedenceMatches(a: seq<string>, b: seq<string>)
    requires forall i :: 0 <= i < |a| && IsDecimal(a[i]) ==> Canonical(a[i])
    requires forall i :: 0 <= i < |b| && IsDecimal(b[i]) ==> Canonical(b[i])
    ensures CompareSeq(KeysOf(a, PreKey), KeysOf(b, PreKey), CompareIdentifier) == FieldsPrecedence(a, b)
  {
    if a != [] && b != [] {
      IdentifierPrecedenceMatches(a[0], b[0]);
      FieldsPrecedenceMatches(a[1..], b[1..]);
      assert KeysOf(a, PreKey)[1..] == KeysOf(a[1..], PreKey);
      assert KeysOf(b, PreKey)[1..] == KeysOf(b[1..], PreKey);
    }
  }

  /** The first four key components order valid versions exactly by section 11. */
  lemma PrecedenceMatches(v: Version, w: Version)
    requires Valid(v) && Valid(w)
    ensures CompareCore(Key(v).value, Key(w).value) == Precedence(v, w)
  {
    ValidExactly(v);
    ValidExactly(w);
    FieldsPrecedenceMatches(v.pre, w.pre);
  }

  // ---------- keys identify versions, and order them strictly ----------

  lemma {:induction false} StripZerosFacts(s: string)
    ensures |StripZeros(s)| <= |s|
    ensures s == seq(|s| - |StripZeros(s)|, _ => '0') + StripZeros(s)
  {
    if s != "" && s[0] == '0' {
      StripZerosFacts(s[1..]);
      assert s == ['0'] + s[1..];
    }
  }

  lemma BuildKeyInjective(a: string, b: string)
    requires BuildKey(a) == BuildKey(b)
    ensures a == b
  {
    StripZerosFacts(a);
    StripZerosFacts(b);
  }

  lemma PreKeysInjective(a: seq<string>, b: seq<string>)
    requires KeysOf(a, PreKey) == KeysOf(b, PreKey)
    ensures a == b
  {
    assert |a| == |KeysOf(a, PreKey)| == |b|;
    forall i | 0 <= i < |a|
      ensures a[i] == b[i]
    {
      assert PreKey(a[i]) == KeysOf(a, PreKey)[i] == PreKey(b[i]);
    }
  }

  lemma BuildKeysInjective(a: seq<string>, b: seq<string>)
    requires KeysOf(a, BuildKey) == KeysOf(b, BuildKey)
    ensures a == b
  {
    assert |a| == |KeysOf(a, BuildKey)| == |b|;
    forall i | 0 <= i < |a|
      ensures a[i] == b[i]
    {
      assert BuildKey(a[i]) == KeysOf(a, BuildKey)[i] == BuildKey(b[i]);
      BuildKeyInjective(a[i], b[i]);
    }
  }

  /** Different valid versions have different keys, also when they differ only in leading zeros of build numbers. */
  lemma KeyInjective(v: Version, w: Version)
    requires Valid(v) && Valid(w) && Key(v) == Key(w)
    ensures v == w
  {
    ValueInjective(v.major, w.major);
    ValueInjective(v.minor, w.minor);
    ValueInjective(v.patch, w.patch);
    PreKeysInjective(v.pre, w.pre);
    BuildKeysInjective(BuildParts(v), BuildParts(w));
    if v.build == [] || w.build == [] {
      assert BuildParts(v)[0] == BuildParts(w)[0];
    }
  }

  lemma CompareIdentifierStrictlyTotal()
    ensures StrictlyTotal(CompareIdentifier)
  {
    forall a: IdentifierKey, b: IdentifierKey
      ensures CompareIdentifier(a, b).Equal? <==> a == b
      ensures CompareIdentifier(b, a) == Flip(CompareIdentifier(a, b))
    {
      CompareTextFacts(a.text, b.text);
    }
    forall a: IdentifierKey, b: IdentifierKey, c: IdentifierKey
      | CompareIdentifier(a, b).Less? && CompareIdentifier(b, c).Less?
      ensures CompareIdentifier(a, c).Less?
    {
      CompareTextFacts(a.text, b.text);
      CompareTextFacts(b.text, c.text);
      if CompareText(a.text, b.text).Less? && CompareText(b.text, c.text).Less? {
        CompareTextTransitive(a.text, b.text, c.text);
      }
    }
  }

  lemma CompareKeyFacts(a: VersionKey, b: VersionKey)
    ensures CompareKey(a, b).Equal? <==> a == b
    ensures CompareKey(b, a) == Flip(CompareKey(a, b))
  {
    CompareIdentifierStrictlyTotal();
    CompareSeqEqual(a.pre, b.pre, CompareIdentifier);
    CompareSeqEqual(a.build, b.build, CompareIdentifier);
  }

  lemma CompareKeyTransitive(a: VersionKey, b: VersionKey, c: VersionKey)
    requires CompareKey(a, b).Less? && CompareKey(b, c).Less?
    ensures CompareKey(a, c).Less?
  {
    CompareIdentifierStrictlyTotal();
    CompareSeqEqual(a.pre, b.pre, CompareIdentifier);
    CompareSeqEqual(b.pre, c.pre, CompareIdentifier);
    CompareSeqEqual(a.build, b.build, CompareIdentifier);
    CompareSeqEqual(b.build, c.build, CompareIdentifier);
    if CompareSeq(a.pre, b.pre, CompareIdentifier).Less? && CompareSeq(b.pre, c.pre, CompareIdentifier).Less? {
      CompareSeqTransitive(a.pre, b.pre, c.pre, CompareIdentifier);
    }
    if CompareSeq(a.build, b.build, CompareIdentifier).Less? && CompareSeq(b.build, c.build, CompareIdentifier).Less? {
      CompareSeqTransitive(a.build, b.build, c.build, CompareIdentifier);
    }
  }

  // ---------- the order of build metadata ----------

  /** Numeric build identifiers compare as numbers, and equal numbers by their length, so that more leading zeros are
      higher; they precede the others, which compare as ASCII text. */
  function BuildIdentifierPrecedence(a: string, b: string): Order {
    if IsDecimal(a) && IsDecimal(b) then Then(CompareInt(Value(a), Value(b)), CompareInt(|a|, |b|))
    else if IsDecimal(a) then Less
    else if IsDecimal(b) then Greater
    else CompareText(a, b)
  }

  /** The first difference decides, and a larger set of identifiers wins a tie. */
  function BuildPrecedence(a: seq<string>, b: seq<string>): Order {
    if a == [] && b == [] then Equal
    else if a == [] then Less
    else if b == [] then Greater
    else Then(BuildIdentifierPrecedence(a[0], b[0]), BuildPrecedence(a[1..], b[1..]))
  }

  lemma {:induction false} StripZerosDecimal(s: string)
    requires IsDecimal(s)
    ensures
      var significant := StripZeros(s);
      AllDigits(significant) && Value(significant) == Value(s) && (significant != "" ==> Canonical(significant))
      && (significant == "" <==> Value(s) == 0)
  {
    if s[0] == '0' {
      if |s| > 1 {
        StripZerosDecimal(s[1..]);
        ValueHead(s);
      } else {
        assert s[1..] == "" && s[..0] == "";
        assert StripZeros(s) == StripZeros(s[1..]) == "";
      }
    } else {
      ValueHead(s);
      Power10Positive(|s| - 1, Digit(s[0]));
    }
  }

  lemma Power10Positive(n: nat, d: nat)
    requires d > 0
    ensures d * Power10(n) > 0
  {
    MultiplyStep(0, d, Power10(n));
  }

  /** (Length, text) order on stripped decimals is numeric order, zero included. */
  lemma StrippedOrder(a: string, b: string)
    requires IsDecimal(a) && IsDecimal(b)
    ensures
      var (x, y) := (StripZeros(a), StripZeros(b));
      Then(CompareInt(|x|, |y|), CompareText(x, y)) == CompareInt(Value(a), Value(b))
  {
    StripZerosDecimal(a);
    StripZerosDecimal(b);
    if StripZeros(a) != "" && StripZeros(b) != "" {
      DecimalOrder(StripZeros(a), StripZeros(b));
    }
  }

  lemma BuildKeyOrder(a: string, b: string)
    ensures CompareIdentifier(BuildKey(a), BuildKey(b)) == BuildIdentifierPrecedence(a, b)
  {
    if IsDecimal(a) && IsDecimal(b) {
      StrippedOrder(a, b);
    }
  }

  lemma {:induction false} BuildKeysOrder(a: seq<string>, b: seq<string>)
    ensures CompareSeq(KeysOf(a, BuildKey), KeysOf(b, BuildKey), CompareIdentifier) == BuildPrecedence(a, b)
  {
    if a != [] && b != [] {
      BuildKeyOrder(a[0], b[0]);
      BuildKeysOrder(a[1..], b[1..]);
      assert KeysOf(a, BuildKey)[1..] == KeysOf(a[1..], BuildKey);
      assert KeysOf(b, BuildKey)[1..] == KeysOf(b[1..], BuildKey);
    }
  }

  /** The whole key orders valid versions by section 11 and, among versions that it ranks alike, by build metadata,
      with an absent build as one empty identifier. */
  lemma KeyOrder(v: Version, w: Version)
    requires Valid(v) && Valid(w)
    ensures CompareKey(Key(v).value, Key(w).value) ==
      Then(Precedence(v, w), BuildPrecedence(BuildParts(v), BuildParts(w)))
  {
    PrecedenceMatches(v, w);
    BuildKeysOrder(BuildParts(v), BuildParts(w));
  }

  /** Versions that differ only in one numeric build identifier are ordered by its number. */
  lemma NumericBuildsOrdered(v: Version, a: string, b: string)
    requires Valid(v.(build := [a])) && Valid(v.(build := [b])) && IsDecimal(a) && IsDecimal(b)
    ensures Value(a) < Value(b) ==> Lower(v.(build := [a]), v.(build := [b]))
  {
    var x, y := v.(build := [a]), v.(build := [b]);
    KeyOrder(x, y);
    var keys := KeysOf(v.pre, PreKey);
    CompareIdentifierStrictlyTotal();
    CompareSeqEqual(keys, keys, CompareIdentifier);
    PrecedenceMatches(x, y);
  }

  /** `v` is strictly lower than `w`. */
  predicate Lower(v: Version, w: Version)
    requires Valid(v) && Valid(w)
  {
    CompareKey(Key(v).value, Key(w).value).Less?
  }

  /** On valid versions the key order is a strict total order: exactly one of lower, equal and higher holds. */
  lemma VersionsTotallyOrdered(v: Version, w: Version)
    requires Valid(v) && Valid(w)
    ensures !Lower(v, v)
    ensures v != w <==> Lower(v, w) || Lower(w, v)
    ensures !(Lower(v, w) && Lower(w, v))
  {
    CompareKeyFacts(Key(v).value, Key(w).value);
    CompareKeyFacts(Key(v).value, Key(v).value);
    if Key(v) == Key(w) {
      KeyInjective(v, w);
    }
  }

  lemma VersionsTransitive(u: Version, v: Version, w: Version)
    requires Valid(u) && Valid(v) && Valid(w) && Lower(u, v) && Lower(v, w)
    ensures Lower(u, w)
  {
    CompareKeyTransitive(Key(u).value, Key(v).value, Key(w).value);
  }

  /** Build metadata does not change the first four components. */
  lemma BuildOutsideCore(v: Version, build: seq<string>)
    requires Grammar(v) && Grammar(v.(build := build))
    ensures CompareCore(KeyOf(v.(build := build)), KeyOf(v)).Equal?
  {
    var keys := KeysOf(v.pre, PreKey);
    CompareIdentifierStrictlyTotal();
    CompareSeqEqual(keys, keys, CompareIdentifier);
  }

  /** The first build identifier decides against an absent build, which is keyed as a text identifier. */
  lemma FirstBuildDecides(build: seq<string>)
    requires build != [] && IdentifierText(build[0])
    ensures CompareSeq(KeysOf(build, BuildKey), KeysOf([""], BuildKey), CompareIdentifier) ==
      if IsDecimal(build[0]) then Less else Greater
  {
    var low, high := KeysOf(build, BuildKey), KeysOf([""], BuildKey);
    assert low[0] == BuildKey(build[0]) && high[0] == BuildKey("");
  }

  /** A version without build metadata ranks above the same version with build metadata exactly when the first build
      identifier is numeric, and below it exactly when that identifier is not. */
  lemma MissingBuildOutranksNumeric(v: Version, build: seq<string>)
    requires Valid(v) && v.build == [] && build != [] && Valid(v.(build := build))
    ensures Lower(v.(build := build), v) <==> IsDecimal(build[0])
    ensures Lower(v, v.(build := build)) <==> !IsDecimal(build[0])
  {
    BuildOutsideCore(v, build);
    FirstBuildDecides(build);
    CompareKeyFacts(KeyOf(v), KeyOf(v.(build := build)));
  }
}
