/** The lexical TOML editor: block spans, collected edits, and their application in reverse offset order. */
module TomlSplice {
  import opened Ordering
  import opened Sorting

  /** Replace the text from `start` to `end`. */
  datatype Edit = Edit(start: nat, end: nat, replacement: string)

  function CompareEdit(a: Edit, b: Edit): Order {
    Then(CompareInt(a.start, b.start), Then(CompareInt(a.end, b.end), CompareText(a.replacement, b.replacement)))
  }

  predicate EditAtMost(a: Edit, b: Edit) {
    !CompareEdit(a, b).Greater?
  }

  lemma EditOrderFacts(a: Edit, b: Edit)
    ensures EditAtMost(a, b) || EditAtMost(b, a)
    ensures EditAtMost(a, b) && EditAtMost(b, a) ==> a == b
  {
    CompareTextFacts(a.replacement, b.replacement);
  }

  lemma EditOrderLinear()
    ensures LinearOrder(EditAtMost)
  {
    forall a, b
      ensures EditAtMost(a, b) || EditAtMost(b, a)
      ensures EditAtMost(a, b) && EditAtMost(b, a) ==> a == b
    {
      EditOrderFacts(a, b);
    }
    forall a, b, c | EditAtMost(a, b) && EditAtMost(b, c)
      ensures EditAtMost(a, c)
    {
      CompareTextFacts(a.replacement, b.replacement);
      CompareTextFacts(b.replacement, c.replacement);
      if CompareText(a.replacement, b.replacement).Less? && CompareText(b.replacement, c.replacement).Less? {
        CompareTextTransitive(a.replacement, b.replacement, c.replacement);
      }
    }
  }

  function Clamp(i: nat, limit: nat): (r: nat)
    ensures r <= limit
  {
    if i < limit then i else limit
  }

  /** One splice; slicing clamps offsets to the text. */
  function Splice(text: string, e: Edit): string {
    text[..Clamp(e.start, |text|)] + e.replacement + text[Clamp(e.end, |text|)..]
  }

  /** Apply ascending edits from the last one to the first. */
  function ApplyBackward(text: string, ascending: seq<Edit>): string
    decreases |ascending|
  {
    if ascending == [] then text
    else ApplyBackward(Splice(text, ascending[|ascending| - 1]), ascending[..|ascending| - 1])
  }

  /** Substitute all spans at once: what is between them stays. */
  function Substitute(text: string, ascending: seq<Edit>, from: nat): string
    requires Chained(ascending, from, |text|)
  {
    if ascending == [] then text[from..]
    else
      var e := ascending[0];
      text[from..e.start] + e.replacement + Substitute(text, ascending[1..], e.end)
  }

  /** Spans follow one another inside the text. */
  predicate Chained(ascending: seq<Edit>, from: nat, length: nat) {
    if ascending == [] then from <= length
    else
      from <= ascending[0].start <= ascending[0].end <= length && Chained(ascending[1..], ascending[0].end, length)
  }

  lemma {:induction false} ChainedInit(init: seq<Edit>, last: Edit, from: nat, length: nat)
    requires Chained(init + [last], from, length)
    ensures from <= last.start <= last.end <= length
    ensures Chained(init, from, last.start)
  {
    if init == [] {
      assert (init + [last])[0] == last;
    } else {
      assert (init + [last])[1..] == init[1..] + [last];
      ChainedInit(init[1..], last, init[0].end, length);
    }
  }

  lemma {:induction false} ChainedLonger(ascending: seq<Edit>, from: nat, shorter: nat, longer: nat)
    requires Chained(ascending, from, shorter) && shorter <= longer
    ensures Chained(ascending, from, longer)
  {
    if ascending != [] {
      ChainedLonger(ascending[1..], ascending[0].end, shorter, longer);
    }
  }

  lemma SamePrefixSlice(a: string, b: string, cut: nat, from: nat, to: nat)
    requires from <= to <= cut <= |a| && cut <= |b| && a[..cut] == b[..cut]
    ensures a[from..to] == b[from..to]
  {
    forall i | 0 <= i < to - from
      ensures a[from..to][i] == b[from..to][i]
    {
      assert a[..cut][from + i] == b[..cut][from + i];
    }
  }

  /** Splicing the last edit in first gives the same text as substituting it together with the others. */
  lemma {:induction false} SubstituteLast(text: string, init: seq<Edit>, last: Edit, from: nat)
    requires Chained(init + [last], from, |text|)
    ensures Chained(init, from, |Splice(text, last)|)
    ensures Substitute(text, init + [last], from) == Substitute(Splice(text, last), init, from)
  {
    ChainedInit(init, last, from, |text|);
    var spliced := Splice(text, last);
    assert spliced == text[..last.start] + last.replacement + text[last.end..];
    ChainedLonger(init, from, last.start, |spliced|);
    if init == [] {
      assert (init + [last])[1..] == [];
      assert spliced[from..] == text[from..last.start] + last.replacement + text[last.end..];
    } else {
      var e := init[0];
      assert (init + [last])[0] == e && (init + [last])[1..] == init[1..] + [last];
      SubstituteLast(text, init[1..], last, e.end);
      assert e.start <= last.start && spliced[..last.start] == text[..last.start];
      SamePrefixSlice(text, spliced, last.start, from, e.start);
    }
  }

  /** Applying chained edits in reverse offset order equals substituting all spans at once. */
  lemma {:induction false} BackwardIsSimultaneous(text: string, ascending: seq<Edit>)
    requires Chained(ascending, 0, |text|)
    ensures ApplyBackward(text, ascending) == Substitute(text, ascending, 0)
    decreases |ascending|
  {
    if ascending == [] {
      assert text[0..] == text;
    } else {
      var init, last := ascending[..|ascending| - 1], ascending[|ascending| - 1];
      assert ascending == init + [last];
      SubstituteLast(text, init, last, 0);
      BackwardIsSimultaneous(Splice(text, last), init);
    }
  }

  /** `p` lies outside every edited span. */
  predicate Outside(ascending: seq<Edit>, p: nat) {
    forall i :: 0 <= i < |ascending| ==> p < ascending[i].start || ascending[i].end <= p
  }

  /** How far the edits that end at or before `p` move it. */
  function Shift(ascending: seq<Edit>, p: nat): int {
    if ascending == [] then 0
    else
      var e := ascending[0];
      (if e.end <= p then |e.replacement| - (e.end - e.start) else 0) + Shift(ascending[1..], p)
  }

  lemma {:induction false} ShiftBefore(ascending: seq<Edit>, from: nat, length: nat, p: nat)
    requires Chained(ascending, from, length) && p < from
    ensures Shift(ascending, p) == 0
  {
    if ascending != [] {
      ShiftBefore(ascending[1..], ascending[0].end, length, p);
    }
  }

  lemma OutsideTail(ascending: seq<Edit>, p: nat)
    requires ascending != [] && Outside(ascending, p)
    ensures Outside(ascending[1..], p) && (p < ascending[0].start || ascending[0].end <= p)
  {
    forall i | 0 <= i < |ascending[1..]|
      ensures p < ascending[1..][i].start || ascending[1..][i].end <= p
    {
      assert ascending[1..][i] == ascending[i + 1];
    }
  }

  lemma ThirdPart(a: string, b: string, c: string, k: nat)
    requires k < |c|
    ensures (a + b + c)[|a| + |b| + k] == c[k]
  {
  }

  lemma FirstPart(a: string, b: string, c: string, k: nat)
    requires k < |a|
    ensures (a + b + c)[k] == a[k]
  {
  }

  ghost predicate KeptAt(text: string, ascending: seq<Edit>, from: nat, p: nat)
    requires Chained(ascending, from, |text|) && from <= p < |text|
  {
    var k := p - from + Shift(ascending, p);
    0 <= k < |Substitute(text, ascending, from)| && Substitute(text, ascending, from)[k] == text[p]
  }

  lemma KeptBeforeFirst(text: string, ascending: seq<Edit>, from: nat, p: nat)
    requires Chained(ascending, from, |text|) && ascending != [] && from <= p < ascending[0].start
    ensures KeptAt(text, ascending, from, p)
  {
    var e := ascending[0];
    ShiftBefore(ascending[1..], e.end, |text|, p);
    assert Shift(ascending, p) == 0;
    FirstPart(text[from..e.start], e.replacement, Substitute(text, ascending[1..], e.end), p - from);
  }

  lemma KeptAfterFirst(text: string, ascending: seq<Edit>, from: nat, p: nat)
    requires Chained(ascending, from, |text|) && ascending != [] && ascending[0].end <= p < |text|
    requires KeptAt(text, ascending[1..], ascending[0].end, p)
    ensures from <= p && KeptAt(text, ascending, from, p)
  {
    var e := ascending[0];
    var before, rest := text[from..e.start], Substitute(text, ascending[1..], e.end);
    var k := p - e.end + Shift(ascending[1..], p);
    assert p - from + Shift(ascending, p) == |before| + |e.replacement| + k;
    ThirdPart(before, e.replacement, rest, k);
  }

  /** A character outside the edited spans is kept, moved by the edits before it. */
  lemma {:induction false} OutsideKept(text: string, ascending: seq<Edit>, from: nat, p: nat)
    requires Chained(ascending, from, |text|) && from <= p < |text| && Outside(ascending, p)
    ensures KeptAt(text, ascending, from, p)
  {
    if ascending != [] {
      OutsideTail(ascending, p);
      if p < ascending[0].start {
        KeptBeforeFirst(text, ascending, from, p);
      } else {
        OutsideKept(text, ascending[1..], ascending[0].end, p);
        KeptAfterFirst(text, ascending, from, p);
      }
    }
  }

  /** Each replacement stands where its edit starts, moved by the edits before it. */
  lemma {:induction false} ReplacementPlaced(text: string, ascending: seq<Edit>, from: nat, i: nat)
    requires Chained(ascending, from, |text|) && i < |ascending|
    ensures
      var (e, result) := (ascending[i], Substitute(text, ascending, from));
      var k := e.start - from + Shift(ascending[..i], e.start);
      0 <= k && k + |e.replacement| <= |result| && result[k..k + |e.replacement|] == e.replacement
  {
    var e, first := ascending[i], ascending[0];
    var before := text[from..first.start];
    var rest := Substitute(text, ascending[1..], first.end);
    if i == 0 {
      assert ascending[..0] == [];
      MiddlePart(before, first.replacement, rest);
    } else {
      ReplacementPlaced(text, ascending[1..], first.end, i - 1);
      assert ascending[1..][..i - 1] == ascending[..i][1..];
      StartsAfter(ascending, from, |text|, i);
      var k := e.start - first.end + Shift(ascending[1..][..i - 1], e.start);
      LaterPart(before, first.replacement, rest, k, |e.replacement|);
    }
  }

  lemma MiddlePart(a: string, b: string, c: string)
    ensures (a + b + c)[|a|..|a| + |b|] == b
  {
  }

  lemma LaterPart(a: string, b: string, c: string, k: nat, size: nat)
    requires k + size <= |c|
    ensures (a + b + c)[|a| + |b| + k..|a| + |b| + k + size] == c[k..k + size]
  {
  }

  /** Every later edit starts at or after the end of the first one. */
  lemma {:induction false} StartsAfter(ascending: seq<Edit>, from: nat, length: nat, i: nat)
    requires Chained(ascending, from, length) && 0 < i < |ascending|
    ensures ascending[0].end <= ascending[i].start
  {
    if i > 1 {
      StartsAfter(ascending[1..], ascending[0].end, length, i - 1);
    }
  }

  /** Kept characters stay in order. */
  lemma {:induction false} OutsideOrdered(text: string, ascending: seq<Edit>, from: nat, p: nat, q: nat)
    requires Chained(ascending, from, |text|) && from <= p < q < |text|
    requires Outside(ascending, p) && Outside(ascending, q)
    ensures p + Shift(ascending, p) < q + Shift(ascending, q)
  {
    if ascending != [] {
      var e := ascending[0];
      OutsideTail(ascending, p);
      OutsideTail(ascending, q);
      if e.end <= p && e.start <= p {
        OutsideOrdered(text, ascending[1..], e.end, p, q);
      } else {
        ShiftBefore(ascending[1..], e.end, |text|, p);
        if e.end <= q && e.start <= q {
          OutsideKept(text, ascending[1..], e.end, q);
        } else {
          ShiftBefore(ascending[1..], e.end, |text|, q);
        }
      }
    }
  }

  // ---------- blocks ----------

  /** Offsets of one table header line. */
  datatype Header = Header(start: nat, end: nat)

  /** A table: its header's start, its body's start, and the end of its body without the blank and comment tail. */
  datatype Block = Block(start: nat, body: nat, end: nat)

  /** Header matches are nonempty and follow one another in the text. */
  ghost predicate HeadersOrdered(headers: seq<Header>, length: nat) {
    && (forall i :: 0 <= i < |headers| ==> headers[i].start < headers[i].end <= length)
    && (forall i, j :: 0 <= i < j < |headers| ==> headers[i].end <= headers[j].start)
  }

  function Limit(headers: seq<Header>, i: nat, length: nat): nat
    requires i < |headers|
  {
    if i + 1 < |headers| then headers[i + 1].start else length
  }

  /** The block of each header; `kept` says how much of its body precedes the trailing blank and comment lines. */
  function Blocks(headers: seq<Header>, kept: seq<nat>): seq<Block>
    requires |kept| == |headers|
  {
    seq(|headers|, i requires 0 <= i < |headers| =>
          Block(headers[i].start, headers[i].end, headers[i].end + kept[i]))
  }

  ghost predicate TailsFit(headers: seq<Header>, length: nat, kept: seq<nat>) {
    |kept| == |headers|
    && forall i :: 0 <= i < |headers| ==> headers[i].end + kept[i] <= Limit(headers, i, length)
  }

  predicate WellFormed(b: Block) {
    b.start < b.body <= b.end
  }

  /** The block spans are pairwise disjoint and lie inside the text. */
  lemma BlocksDisjoint(headers: seq<Header>, length: nat, kept: seq<nat>, i: nat, j: nat)
    requires HeadersOrdered(headers, length) && TailsFit(headers, length, kept) && i < j < |headers|
    ensures
      var blocks := Blocks(headers, kept);
      && WellFormed(blocks[i]) && WellFormed(blocks[j]) && blocks[i].end <= blocks[j].start && blocks[j].end <= length
      && blocks[i].start == headers[i].start && blocks[i].body == headers[i].end
      && blocks[i].end - blocks[i].body == kept[i]
  {
    assert headers[i].end + kept[i] <= Limit(headers, i, length);
    assert headers[j].end + kept[j] <= Limit(headers, j, length);
  }

  // ---------- collected edits ----------

  /** The edits the editor makes in a block: the whole table, an inserted first line, or one assignment of its body. */
  predicate EditsBlock(e: Edit, b: Block) {
    || (e.start == b.start && e.end == b.end)
    || (e.start == e.end == b.body)
    || (b.body <= e.start < e.end <= b.end)
  }

  predicate BlocksApart(a: Block, b: Block) {
    a.end <= b.start || b.end <= a.start
  }

  /** The one that sorts first ends before the other starts. */
  predicate OrderedApart(a: Edit, b: Edit) {
    (EditAtMost(a, b) ==> a.end <= b.start) && (EditAtMost(b, a) ==> b.end <= a.start)
  }

  /** Edits of disjoint blocks sort like their blocks, also when they touch at a common offset. */
  lemma DistinctBlocksApart(a: Edit, b: Edit, blockA: Block, blockB: Block)
    requires EditsBlock(a, blockA) && EditsBlock(b, blockB) && WellFormed(blockA) && WellFormed(blockB)
    requires BlocksApart(blockA, blockB)
    ensures OrderedApart(a, b)
  {
  }

  lemma {:induction false} InsertChained(x: Edit, s: seq<Edit>, from: nat, length: nat)
    requires Chained(s, from, length) && from <= x.start <= x.end <= length
    requires forall y :: y in s ==> OrderedApart(x, y)
    ensures Chained(Insert(x, s, EditAtMost), from, length)
  {
    if s != [] {
      assert s[0] in s && OrderedApart(x, s[0]);
      if EditAtMost(x, s[0]) {
        assert ([x] + s)[1..] == s;
      } else {
        EditOrderFacts(x, s[0]);
        InsertChained(x, s[1..], s[0].end, length);
        assert ([s[0]] + Insert(x, s[1..], EditAtMost))[1..] == Insert(x, s[1..], EditAtMost);
      }
    }
  }

  ghost predicate PairwiseApart(edits: seq<Edit>) {
    forall i, j :: 0 <= i < j < |edits| ==> OrderedApart(edits[i], edits[j])
  }

  lemma {:induction false} SortMembers(edits: seq<Edit>)
    ensures forall y :: y in Sort(edits, EditAtMost) <==> y in edits
  {
    if edits != [] {
      SortMembers(edits[1..]);
      InsertKeeps(edits[0], Sort(edits[1..], EditAtMost), EditAtMost);
      assert edits == [edits[0]] + edits[1..];
    }
  }

  lemma {:induction false} SortChained(edits: seq<Edit>, length: nat)
    requires PairwiseApart(edits) && forall i :: 0 <= i < |edits| ==> edits[i].start <= edits[i].end <= length
    ensures Chained(Sort(edits, EditAtMost), 0, length)
  {
    if edits != [] {
      SortChained(edits[1..], length);
      SortMembers(edits[1..]);
      forall y | y in Sort(edits[1..], EditAtMost)
        ensures OrderedApart(edits[0], y)
      {
        var i :| 0 <= i < |edits[1..]| && edits[1..][i] == y;
        assert OrderedApart(edits[0], edits[i + 1]);
      }
      InsertChained(edits[0], Sort(edits[1..], EditAtMost), 0, length);
    }
  }

  /** Every edit belongs to its own block. */
  ghost predicate FromDistinctBlocks(edits: seq<Edit>, owners: seq<Block>, length: nat) {
    && |owners| == |edits|
    && (forall i :: 0 <= i < |edits| ==>
         EditsBlock(edits[i], owners[i]) && WellFormed(owners[i]) && owners[i].end <= length)
    && (forall i, j :: 0 <= i < j < |edits| ==> BlocksApart(owners[i], owners[j]))
  }

  /** Edits collected from distinct blocks, in any order, are applied as one simultaneous substitution. */
  lemma CollectedEditsSubstitute(text: string, edits: seq<Edit>, owners: seq<Block>)
    requires FromDistinctBlocks(edits, owners, |text|)
    ensures Chained(Sort(edits, EditAtMost), 0, |text|)
    ensures ApplyBackward(text, Sort(edits, EditAtMost)) == Substitute(text, Sort(edits, EditAtMost), 0)
  {
    forall i, j | 0 <= i < j < |edits|
      ensures OrderedApart(edits[i], edits[j])
    {
      DistinctBlocksApart(edits[i], edits[j], owners[i], owners[j]);
    }
    forall i | 0 <= i < |edits|
      ensures edits[i].start <= edits[i].end <= |text|
    {
      assert EditsBlock(edits[i], owners[i]);
    }
    SortChained(edits, |text|);
    BackwardIsSimultaneous(text, Sort(edits, EditAtMost));
  }

  /** The order in which the edits were collected does not matter. */
  lemma CollectionOrderIrrelevant(text: string, a: seq<Edit>, b: seq<Edit>)
    requires multiset(a) == multiset(b)
    ensures ApplyBackward(text, Sort(a, EditAtMost)) == ApplyBackward(text, Sort(b, EditAtMost))
  {
    EditOrderLinear();
    SortForgetsOrder(a, b, EditAtMost);
  }

  // ---------- the editor ----------

  predicate EndsWith(text: string, suffix: string) {
    |suffix| <= |text| && text[|text| - |suffix|..] == suffix
  }

  function RemoveSuffix(text: string, suffix: string): string {
    if EndsWith(text, suffix) then text[..|text| - |suffix|] else text
  }

  function JoinWith(parts: seq<string>, separator: string): string {
    if parts == [] then ""
    else if |parts| == 1 then parts[0]
    else parts[0] + separator + JoinWith(parts[1..], separator)
  }

  function Gap(core: string, newline: string): string {
    if core != "" then newline + newline else ""
  }

  /** New tables go after the last line and before the terminal newlines. */
  function WithAdditions(text: string, additions: seq<string>, newline: string, terminal: string): string {
    if additions == [] then text
    else
      var core := RemoveSuffix(text, terminal);
      core + Gap(core, newline) + JoinWith(additions, newline + newline) + terminal
  }

  /** Where a part stands in the joined text. */
  function PartOffset(parts: seq<string>, separator: string, i: nat): nat
    requires i < |parts|
  {
    if i == 0 then 0 else |parts[0]| + |separator| + PartOffset(parts[1..], separator, i - 1)
  }

  lemma {:induction false} PartPlaced(parts: seq<string>, separator: string, i: nat)
    requires i < |parts|
    ensures
      var (k, joined) := (PartOffset(parts, separator, i), JoinWith(parts, separator));
      k + |parts[i]| <= |joined| && joined[k..k + |parts[i]|] == parts[i]
  {
    if i > 0 {
      PartPlaced(parts[1..], separator, i - 1);
      LaterPart(parts[0], separator, JoinWith(parts[1..], separator), PartOffset(parts[1..], separator, i - 1),
                |parts[i]|);
    } else if |parts| > 1 {
      assert JoinWith(parts, separator)[..|parts[0]|] == parts[0];
    }
  }

  /** The text is what stands before its terminal newlines and, if it ends with them, those newlines. */
  lemma CoreKeepsText(text: string, terminal: string)
    ensures text == RemoveSuffix(text, terminal) + if EndsWith(text, terminal) then terminal else ""
  {
  }

  lemma AdditionsJoined(text: string, additions: seq<string>, newline: string, terminal: string, core: string)
    requires additions != [] && core == RemoveSuffix(text, terminal)
    ensures WithAdditions(text, additions, newline, terminal) ==
      core + Gap(core, newline) + JoinWith(additions, newline + newline) + terminal
  {
  }

  /** Adding tables keeps the text before its terminal newlines and ends with them, and every new table stands
      between. */
  lemma AdditionsPlaced(text: string, additions: seq<string>, newline: string, terminal: string, i: nat)
    requires i < |additions|
    ensures
      var core := RemoveSuffix(text, terminal);
      PlacedBetween(WithAdditions(text, additions, newline, terminal), core, terminal,
                    |core| + |Gap(core, newline)| + PartOffset(additions, newline + newline, i), additions[i])
  {
    var core := RemoveSuffix(text, terminal);
    AdditionsJoined(text, additions, newline, terminal, core);
    PartPlacedBetween(core, Gap(core, newline), additions, newline + newline, terminal, i);
  }

  /** The first new table starts the text when nothing stands before it, and else follows a blank line. */
  lemma AdditionsSeparated(text: string, additions: seq<string>, newline: string, terminal: string)
    requires additions != []
    ensures
      var (core, result) := (RemoveSuffix(text, terminal), WithAdditions(text, additions, newline, terminal));
      var first := if core == "" then additions[0] else core + newline + newline + additions[0];
      first <= result
  {
    var (core, rest) := (RemoveSuffix(text, terminal), JoinWith(additions, newline + newline));
    assert additions[0] <= rest;
    assert rest == additions[0] + rest[|additions[0]|..];
    assert core + newline + newline + rest == core + (newline + newline) + rest;
    AdditionsJoined(text, additions, newline, terminal, core);
  }

  lemma PartPlacedBetween(core: string, gap: string, parts: seq<string>, separator: string, terminal: string, i: nat)
    requires i < |parts|
    ensures PlacedBetween(core + gap + JoinWith(parts, separator) + terminal, core, terminal,
                          |core| + |gap| + PartOffset(parts, separator, i), parts[i])
  {
    PartPlaced(parts, separator, i);
    BetweenKept(core, gap, JoinWith(parts, separator), terminal, PartOffset(parts, separator, i), parts[i]);
  }

  /** `result` starts with `core`, ends with `terminal`, and holds `part` at `at` between them. */
  predicate PlacedBetween(result: string, core: string, terminal: string, at: nat, part: string) {
    && |core| <= at && at + |part| + |terminal| <= |result|
    && result[..|core|] == core && result[|result| - |terminal|..] == terminal && result[at..at + |part|] == part
  }

  lemma BetweenKept(core: string, gap: string, joined: string, terminal: string, k: nat, part: string)
    requires k + |part| <= |joined| && joined[k..k + |part|] == part
    ensures PlacedBetween(core + gap + joined + terminal, core, terminal, |core| + |gap| + k, part)
  {
    var body := core + gap + joined;
    LaterPart(core, gap, joined, k, |part|);
    assert body[..|core|] == core;
    PrefixKept(body, terminal, |core|);
    SliceKept(body, terminal, |core| + |gap| + k, |part|);
  }

  lemma PrefixKept(a: string, b: string, n: nat)
    requires n <= |a|
    ensures (a + b)[..n] == a[..n] && (a + b)[|a + b| - |b|..] == b
  {
  }

  lemma SliceKept(a: string, b: string, k: nat, size: nat)
    requires k + size <= |a|
    ensures (a + b)[k..k + size] == a[k..k + size]
  {
  }

  class Editor {
    const text: string
    const newline: string
    const terminal: string
    var edits: seq<Edit>
    var additions: seq<string>
    ghost var owners: seq<Block>

    ghost predicate Valid()
      reads this
    {
      FromDistinctBlocks(edits, owners, |text|)
    }

    constructor (text: string, newline: string, terminal: string)
      ensures Valid() && edits == [] && additions == [] && owners == []
      ensures this.text == text && this.newline == newline && this.terminal == terminal
    {
      this.text, this.newline, this.terminal := text, newline, terminal;
      edits, additions, owners := [], [], [];
    }

    /** A block that no collected edit belongs to. */
    ghost predicate Untouched(b: Block)
      reads this
    {
      WellFormed(b) && b.end <= |text| && forall i :: 0 <= i < |owners| ==> BlocksApart(owners[i], b)
    }

    method Collect(e: Edit, ghost b: Block)
      requires Valid() && Untouched(b) && EditsBlock(e, b)
      modifies this`edits, this`owners
      ensures Valid() && edits == old(edits) + [e] && owners == old(owners) + [b]
    {
      edits := edits + [e];
      owners := owners + [b];
    }

    /** Replace a table, keeping its last line break; without a block the table is appended later. */
    method EditTable(block: Block, replacement: string)
      requires Valid() && Untouched(block)
      modifies this`edits, this`owners
      ensures Valid() && owners == old(owners) + [block] && |edits| == |old(edits)| + 1
      ensures edits[..|old(edits)|] == old(edits)
      ensures
        var e := edits[|old(edits)|];
        e.start == block.start && e.end == block.end
        && e.replacement ==
           if EndsWith(text[block.start..block.end], newline) then replacement + newline else replacement
    {
      var ending := if EndsWith(text[block.start..block.end], newline) then newline else "";
      Collect(Edit(block.start, block.end, replacement + ending), block);
    }

    method AppendTable(replacement: string)
      modifies this`additions
      ensures additions == old(additions) + [replacement]
    {
      additions := additions + [replacement];
    }

    /** Replace the assignment found from `start` to `end` of the body, or insert one at its head when there is none. */
    method EditBoolean(block: Block, found: bool, start: nat, end: nat, assignment: string)
      requires Valid() && Untouched(block)
      requires found ==> start < end <= block.end - block.body
      modifies this`edits, this`owners
      ensures Valid() && owners == old(owners) + [block]
      ensures edits == old(edits) +
                       [if found then Edit(block.body + start, block.body + end, assignment)
                        else Edit(block.body, block.body, assignment + newline)]
    {
      if !found {
        Collect(Edit(block.body, block.body, assignment + newline), block);
        return;
      }
      Collect(Edit(block.body + start, block.body + end, assignment), block);
    }

    method Drop(block: Block)
      requires Valid() && Untouched(block)
      modifies this`edits, this`owners
      ensures Valid() && owners == old(owners) + [block] && edits == old(edits) + [Edit(block.start, block.end, "")]
    {
      Collect(Edit(block.start, block.end, ""), block);
    }

    /** Apply the edits in reverse offset order, then add the new tables. */
    method Finish() returns (result: string)
      requires Valid()
      ensures Chained(Sort(edits, EditAtMost), 0, |text|)
      ensures result == WithAdditions(Substitute(text, Sort(edits, EditAtMost), 0), additions, newline, terminal)
    {
      var ascending := Sort(edits, EditAtMost);
      CollectedEditsSubstitute(text, edits, owners);
      var rendered := text;
      var i := |ascending|;
      assert ascending[..i] == ascending;
      while i > 0
        invariant 0 <= i <= |ascending|
        invariant ApplyBackward(rendered, ascending[..i]) == ApplyBackward(text, ascending)
      {
        i := i - 1;
        assert ascending[..i + 1][..i] == ascending[..i];
        rendered := Splice(rendered, ascending[i]);
      }
      result := rendered;
      if additions != [] {
        var core := RemoveSuffix(rendered, terminal);
        var separator := if core != "" then newline + newline else "";
        result := core + separator + JoinWith(additions, newline + newline) + terminal;
      }
    }
  }
}
