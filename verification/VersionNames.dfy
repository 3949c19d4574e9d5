/** Version names as text: which texts are versions, and the order that falls back to raw text. */
module VersionNames {
  import opened Options
  import opened Ordering
  import opened CacheSemver

  // ---------- the text of a version ----------

  function JoinDots(parts: seq<string>): string
    requires parts != []
    decreases |parts|, 1
  {
    parts[0] + DotTail(parts)
  }

  function DotTail(parts: seq<string>): string
    requires parts != []
    decreases |parts|, 0
  {
    if |parts| == 1 then "" else "." + JoinDots(parts[1..])
  }

  function PreText(pre: seq<string>): string {
    if pre == [] then "" else "-" + JoinDots(pre)
  }

  function BuildText(build: seq<string>): string {
    if build == [] then "" else "+" + JoinDots(build)
  }

  /** The text from which the version pattern captures the groups of `v`. */
  function NameOf(v: Version): string {
    v.major + ("." + (v.minor + ("." + (v.patch + (PreText(v.pre) + BuildText(v.build))))))
  }

  predicate Free(s: string, stop: set<char>) {
    forall i :: 0 <= i < |s| ==> s[i] !in stop
  }

  /** A text splits in at most one way into a part without stop characters and a rest that is empty or starts at one. */
  lemma CutUnique(a: string, x: string, b: string, y: string, stop: set<char>)
    requires Free(a, stop) && (x == "" || x[0] in stop)
    requires Free(b, stop) && (y == "" || y[0] in stop)
    requires a + x == b + y
    ensures a == b && x == y
  {
    var s := a + x;
    assert forall i :: 0 <= i < |a| ==> s[i] == a[i];
    assert forall i :: 0 <= i < |b| ==> s[i] == b[i];
    assert x != "" ==> s[|a|] == x[0];
    assert y != "" ==> s[|b|] == y[0];
    assert |a| == |b|;
    assert a == (a + x)[..|a|] == (b + y)[..|b|] == b;
    assert x == (a + x)[|a|..] == (b + y)[|b|..] == y;
  }

  predicate AllIdentifiers(parts: seq<string>) {
    forall i :: 0 <= i < |parts| ==> IdentifierText(parts[i])
  }

  lemma {:induction false} DotsUnique(p: seq<string>, q: seq<string>)
    requires p != [] && q != [] && AllIdentifiers(p) && AllIdentifiers(q)
    requires JoinDots(p) == JoinDots(q)
    ensures p == q
    decreases |p|
  {
    CutUnique(p[0], DotTail(p), q[0], DotTail(q), {'.'});
    if |p| > 1 {
      assert JoinDots(p[1..]) == DotTail(p)[1..] == DotTail(q)[1..] == JoinDots(q[1..]);
      DotsUnique(p[1..], q[1..]);
    }
    assert p == [p[0]] + p[1..] && q == [q[0]] + q[1..];
  }

  predicate VersionChars(s: string) {
    forall i :: 0 <= i < |s| ==>
      IsDigit(s[i]) || 'a' <= s[i] <= 'z' || 'A' <= s[i] <= 'Z' || s[i] == '-' || s[i] == '.' || s[i] == '+'
  }

  lemma {:induction false} DotsFree(parts: seq<string>)
    requires parts != [] && AllIdentifiers(parts)
    ensures Free(JoinDots(parts), {'+'}) && VersionChars(JoinDots(parts))
    decreases |parts|
  {
    if |parts| > 1 {
      DotsFree(parts[1..]);
    }
  }

  lemma SuffixUnique(v: Version, w: Version)
    requires Grammar(v) && Grammar(w)
    requires PreText(v.pre) + BuildText(v.build) == PreText(w.pre) + BuildText(w.build)
    ensures v.pre == w.pre && v.build == w.build
  {
    if v.pre != [] {
      DotsFree(v.pre);
    }
    if w.pre != [] {
      DotsFree(w.pre);
    }
    CutUnique(PreText(v.pre), BuildText(v.build), PreText(w.pre), BuildText(w.build), {'+'});
    if v.pre != [] {
      assert JoinDots(v.pre) == PreText(v.pre)[1..] == PreText(w.pre)[1..] == JoinDots(w.pre);
      DotsUnique(v.pre, w.pre);
    }
    if v.build != [] {
      assert JoinDots(v.build) == BuildText(v.build)[1..] == BuildText(w.build)[1..] == JoinDots(w.build);
      DotsUnique(v.build, w.build);
    }
  }

  /** The version pattern is unambiguous: a text has at most one capture. */
  lemma CaptureUnique(v: Version, w: Version)
    requires Grammar(v) && Grammar(w) && NameOf(v) == NameOf(w)
    ensures v == w
  {
    var v3, w3 := PreText(v.pre) + BuildText(v.build), PreText(w.pre) + BuildText(w.build);
    var v2, w2 := v.minor + ("." + (v.patch + v3)), w.minor + ("." + (w.patch + w3));
    CutUnique(v.major, "." + v2, w.major, "." + w2, {'.'});
    assert v2 == ("." + v2)[1..] == ("." + w2)[1..] == w2;
    CutUnique(v.minor, "." + (v.patch + v3), w.minor, "." + (w.patch + w3), {'.'});
    assert v.patch + v3 == ("." + (v.patch + v3))[1..] == ("." + (w.patch + w3))[1..] == w.patch + w3;
    CutUnique(v.patch, v3, w.patch, w3, {'-', '+'});
    SuffixUnique(v, w);
  }

  lemma DigitChars(s: string)
    requires IsDecimal(s)
    ensures VersionChars(s)
  {
  }

  lemma CharsConcat(a: string, b: string)
    requires VersionChars(a) && VersionChars(b)
    ensures VersionChars(a + b)
  {
  }

  lemma SuffixChars(v: Version)
    requires Grammar(v)
    ensures VersionChars(PreText(v.pre) + BuildText(v.build))
  {
    if v.pre != [] {
      DotsFree(v.pre);
    }
    if v.build != [] {
      DotsFree(v.build);
    }
    CharsConcat(PreText(v.pre), BuildText(v.build));
  }

  lemma NameChars(v: Version)
    requires Grammar(v)
    ensures VersionChars(NameOf(v))
  {
    DigitChars(v.major);
    DigitChars(v.minor);
    DigitChars(v.patch);
    SuffixChars(v);
    var afterPatch := PreText(v.pre) + BuildText(v.build);
    CharsConcat(v.patch, afterPatch);
    CharsConcat(".", v.patch + afterPatch);
    var afterMinor := "." + (v.patch + afterPatch);
    CharsConcat(v.minor, afterMinor);
    CharsConcat(".", v.minor + afterMinor);
    CharsConcat(v.major, "." + (v.minor + afterMinor));
  }

  // ---------- safe names ----------

  function UpperChar(c: char): char {
    if 'a' <= c <= 'z' then (c as int - 'a' as int + 'A' as int) as char else c
  }

  function Upper(s: string): (u: string)
    ensures |u| == |s|
  {
    seq(|s|, i requires 0 <= i < |s| => UpperChar(s[i]))
  }

  /** What precedes the first dot, or everything. */
  function Stem(s: string): string {
    if s == "" || s[0] == '.' then "" else [s[0]] + Stem(s[1..])
  }

  /** Device names that one of the hosts reserves. */
  predicate ReservedStem(stem: string) {
    stem in {"CON", "PRN", "AUX", "NUL"}
    || (|stem| == 4 && (stem[..3] == "COM" || stem[..3] == "LPT") && '1' <= stem[3] <= '9')
  }

  const SPECIAL := "<>:\"/\\|?*"

  /** A path component that is safe on either host. */
  predicate SafeName(name: string) {
    && name != "" && name != "." && name != ".."
    && (forall i :: 0 <= i < |name| ==> ' ' <= name[i] && name[i] !in SPECIAL)
    && name[|name| - 1] != ' ' && name[|name| - 1] != '.'
    && !ReservedStem(Upper(Stem(name)))
  }

  /** A safe name is one path component on either host: no separator, no parent, no control character, and no reserved
      device name in any case or with any extension. */
  lemma SafeNamesPlain(name: string, stem: string, rest: string)
    requires name == stem + rest && (rest == "" || rest[0] == '.') && '.' !in stem
    requires SafeName(name)
    ensures name != "" && name != "." && name != ".." && '/' !in name && '\\' !in name
    ensures forall c :: c in name ==> ' ' <= c && c !in SPECIAL
    ensures name[|name| - 1] !in {' ', '.'}
    ensures !ReservedStem(Upper(stem))
  {
    assert '/' in SPECIAL && '\\' in SPECIAL by {
      assert SPECIAL[4] == '/' && SPECIAL[5] == '\\';
    }
    StemOf(stem, rest);
  }

  lemma {:induction false} StemOf(stem: string, rest: string)
    requires (rest == "" || rest[0] == '.') && '.' !in stem
    ensures Stem(stem + rest) == stem
  {
    if stem == "" {
      assert stem + rest == rest;
    } else {
      assert stem[0] in stem;
      assert (stem + rest)[1..] == stem[1..] + rest;
      StemOf(stem[1..], rest);
    }
  }

  /** A version's name followed by an exclamation mark is a safe name. */
  lemma MarkedNameSafe(v: Version)
    requires Grammar(v)
    ensures SafeName(NameOf(v) + "!")
  {
    var name := NameOf(v) + "!";
    NameChars(v);
    assert name[0] == v.major[0];
    assert Upper(Stem(name))[0] == name[0];
    forall i | 0 <= i < |name|
      ensures ' ' <= name[i] && name[i] !in SPECIAL
    {
      assert i < |NameOf(v)| ==> name[i] == NameOf(v)[i];
    }
  }

  // ---------- names ----------

  ghost predicate Captures(name: string, v: Version) {
    Grammar(v) && NameOf(v) == name
  }

  ghost function Capture(name: string): (r: Option<Version>)
    ensures r.Some? ==> Captures(name, r.value)
    ensures r.None? ==> forall v :: !Captures(name, v)
  {
    if exists v :: Captures(name, v) then
      var v :| Captures(name, v);
      Some(v)
    else None
  }

  /** The key of a text, or None for a text that is not a version. */
  ghost function NameKey(name: string): Option<VersionKey> {
    var captured := Capture(name);
    if captured.Some? then Key(captured.value) else None
  }

  lemma NameKeyOf(v: Version)
    requires Grammar(v)
    ensures NameKey(NameOf(v)) == Key(v)
  {
    assert Captures(NameOf(v), v);
    CaptureUnique(v, Capture(NameOf(v)).value);
  }

  /** Different texts never share a key. */
  lemma NameKeysDiffer(a: string, b: string)
    requires NameKey(a).Some? && NameKey(a) == NameKey(b)
    ensures a == b
  {
    KeyInjective(Capture(a).value, Capture(b).value);
  }

  /** Raw text order decides whenever either name is not a version. */
  ghost predicate Higher(candidate: string, source: string) {
    var candidateKey, sourceKey := NameKey(candidate), NameKey(source);
    if candidateKey.None? || sourceKey.None? then CompareText(candidate, source).Greater?
    else CompareKey(candidateKey.value, sourceKey.value).Greater?
  }

  /** Of two different names exactly one is higher, whatever they are. */
  lemma HigherOneWay(a: string, b: string)
    ensures !Higher(a, a)
    ensures a != b ==> (Higher(a, b) <==> !Higher(b, a))
  {
    CompareTextFacts(a, b);
    CompareTextFacts(a, a);
    if NameKey(a).Some? {
      CompareKeyFacts(NameKey(a).value, NameKey(a).value);
      if NameKey(b).Some? {
        CompareKeyFacts(NameKey(a).value, NameKey(b).value);
        if NameKey(a) == NameKey(b) {
          NameKeysDiffer(a, b);
        }
      }
    }
  }

  /** Two names that key order and text order put the same way round. */
  ghost predicate Agree(a: string, b: string) {
    Higher(a, b) <==> CompareText(a, b).Greater?
  }

  /** Three names are ordered consistently when all are versions, or when text order agrees on each pair. */
  lemma HigherTransitive(a: string, b: string, c: string)
    requires Higher(a, b) && Higher(b, c)
    requires
      || (NameKey(a).Some? && NameKey(b).Some? && NameKey(c).Some?)
      || (Agree(a, b) && Agree(b, c) && Agree(a, c))
    ensures Higher(a, c)
  {
    if Agree(a, b) && Agree(b, c) && Agree(a, c) {
      CompareTextFacts(a, b);
      CompareTextFacts(b, c);
      CompareTextFacts(a, c);
      CompareTextTransitive(c, b, a);
    } else {
      var x, y, z := NameKey(a).value, NameKey(b).value, NameKey(c).value;
      CompareKeyFacts(x, y);
      CompareKeyFacts(y, z);
      CompareKeyFacts(x, z);
      CompareKeyTransitive(z, y, x);
    }
  }

  lemma {:induction false} JustAbove(low: string, high: string)
    requires CompareText(low, high).Greater? && VersionChars(low)
    ensures CompareText(low, high + "!").Greater?
    ensures CompareText(high + "!", high).Greater?
    decreases |high|
  {
    var x := high + "!";
    if high == "" {
      assert x == "!";
      assert low[0] > '!';
    } else {
      assert x[1..] == high[1..] + "!";
      CompareTextFacts(high[1..], high[1..]);
      if low[0] == high[0] {
        JustAbove(low[1..], high[1..]);
      } else {
        AppendGreater(high);
      }
    }
  }

  lemma {:induction false} AppendGreater(s: string)
    ensures CompareText(s + "!", s).Greater?
  {
    if s != "" {
      AppendGreater(s[1..]);
      assert (s + "!")[1..] == s[1..] + "!";
    }
  }

  lemma MarkedIsNoVersion(name: string)
    ensures NameKey(name + "!").None?
  {
    var x := name + "!";
    assert x[|name|] == '!';
    var captured := Capture(x);
    if captured.Some? {
      NameChars(captured.value);
      assert false;
    }
  }

  /** Two versions and a safe name, each of which is higher than the next. */
  ghost predicate Cycle(high: string, low: string, third: string) {
    && NameKey(high).Some? && NameKey(low).Some? && SafeName(third)
    && Higher(high, low) && Higher(low, third) && Higher(third, high)
  }

  /** Two versions that raw text puts the other way round close into a cycle through a safe name. */
  lemma MarkedNameCycles(low: string, high: string, marked: string)
    requires NameKey(low).Some? && NameKey(high).Some? && Higher(high, low)
    requires CompareText(low, high).Greater? && marked == high + "!"
    ensures Cycle(high, low, marked)
  {
    NameChars(Capture(low).value);
    JustAbove(low, high);
    MarkedIsNoVersion(high);
    MarkedNameSafe(Capture(high).value);
  }

  /** The order of two versions closes into a cycle through some safe name exactly when raw text order reverses it. */
  lemma HigherCyclesExactly(low: string, high: string)
    requires NameKey(low).Some? && NameKey(high).Some? && Higher(high, low)
    ensures (exists x :: Cycle(high, low, x)) <==> CompareText(low, high).Greater?
  {
    if CompareText(low, high).Greater? {
      MarkedNameCycles(low, high, high + "!");
    } else {
      forall x
        ensures !Cycle(high, low, x)
      {
        if Higher(low, x) && Higher(x, high) {
          HigherOneWay(high, low);
          if NameKey(x).Some? {
            HigherTransitive(low, x, high);
          } else {
            CompareTextFacts(low, x);
            CompareTextFacts(x, high);
            CompareTextFacts(low, high);
            CompareTextTransitive(high, x, low);
          }
          assert false;
        }
      }
    }
  }

  lemma OneDigit(s: string)
    requires |s| == 1 && IsDigit(s[0])
    ensures Value(s) == Digit(s[0]) && Canonical(s)
  {
    assert s[..0] == "";
  }

  lemma SmallNumbers()
    ensures Canonical("0") && Canonical("1") && Canonical("9") && Canonical("10")
    ensures Value("0") == 0 && Value("1") == 1 && Value("9") == 9 && Value("10") == 10
  {
    OneDigit("0");
    OneDigit("1");
    OneDigit("9");
    assert "10"[..1] == "1";
  }

  lemma MinorDecides(v: Version, w: Version)
    requires Valid(v) && Valid(w) && v.major == w.major && Value(v.minor) < Value(w.minor)
    ensures NameKey(NameOf(v)).Some? && NameKey(NameOf(w)).Some? && Higher(NameOf(w), NameOf(v))
  {
    NameKeyOf(v);
    NameKeyOf(w);
  }

  lemma SmallVersion(minor: string)
    requires minor == "9" || minor == "10"
    ensures Valid(Version("1", minor, "0", [], []))
  {
    SmallNumbers();
  }

  lemma SmallNames()
    ensures NameOf(Version("1", "9", "0", [], [])) == "1.9.0"
    ensures NameOf(Version("1", "10", "0", [], [])) == "1.10.0"
  {
  }

  lemma NumbersAsText(low: string, high: string)
    requires low == "1.9.0" && high == "1.10.0"
    ensures CompareText(low, high).Greater?
  {
    assert low[1..] == ".9.0" && high[1..] == ".10.0";
    assert ".9.0"[1..] == "9.0" && ".10.0"[1..] == "10.0";
    assert CompareText("9.0", "10.0").Greater?;
    assert CompareText(".9.0", ".10.0").Greater?;
  }

  lemma MinorsCycle(v: Version, w: Version, marked: string)
    requires Valid(v) && Valid(w) && v.major == w.major && Value(v.minor) < Value(w.minor)
    requires CompareText(NameOf(v), NameOf(w)).Greater? && marked == NameOf(w) + "!"
    ensures Cycle(NameOf(w), NameOf(v), marked)
  {
    MinorDecides(v, w);
    MarkedNameCycles(NameOf(v), NameOf(w), marked);
  }

  /** Such versions exist, with numbers of different lengths. */
  lemma NumbersCycle(low: string, high: string, marked: string)
    requires low == "1.9.0" && high == "1.10.0" && marked == "1.10.0!"
    ensures Cycle(high, low, marked)
  {
    SmallVersion("9");
    SmallVersion("10");
    SmallNumbers();
    SmallNames();
    NumbersAsText(low, high);
    MinorsCycle(Version("1", "9", "0", [], []), Version("1", "10", "0", [], []), marked);
  }
}
