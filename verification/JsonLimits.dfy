/** The structural limits on decoded JSON: an explicit-stack walk that must agree with the recursive rule. */
module JsonLimits {
  import opened Options
  import opened Utf8

  const MAX_NESTING_DEPTH: nat := 16
  const MAX_OBJECT_MEMBERS: nat := 128
  const MAX_ARRAY_ITEMS: nat := 128
  const MAX_STRING_BYTES: nat := 65_536

  /** A decoded value. Members keep their insertion order. */
  datatype Json =
    | JNull
    | JBool(flag: bool)
    | JInt(number: int)
    | JFloat(finite: bool)
    | JString(text: Text)
    | JArray(items: seq<Json>)
    | JObject(members: seq<Member>)

  datatype Member = Member(name: Text, value: Json)

  datatype PathPart = Key(name: Text) | Index(position: nat)

  type Path = seq<PathPart>

  // ---------- the recursive rule ----------

  const EXEMPT_PATH: Path := [Key(Ascii("params")), Key(Ascii("arguments")), Key(Ascii("session_id"))]

  /** A string must be encodable and short, but one path may be overlong when the message has the exempting shape. */
  predicate StringOk(text: Text, path: Path, exempting: bool) {
    var bytes := ByteLength(text);
    bytes.Some? && (bytes.value <= MAX_STRING_BYTES || (exempting && path == EXEMPT_PATH))
  }

  predicate Accepts(v: Json, depth: nat, path: Path, exempting: bool)
    decreases v
  {
    depth <= MAX_NESTING_DEPTH
    && match v
       case JString(text) => StringOk(text, path, exempting)
       case JFloat(finite) => finite
       case JArray(items) =>
         |items| <= MAX_ARRAY_ITEMS
         && forall i :: 0 <= i < |items| ==> Accepts(items[i], depth + 1, path + [Index(i)], exempting)
       case JObject(members) =>
         forall i :: 0 <= i < |members| ==>
           Accepts(members[i].value, depth + 1, path + [Key(members[i].name)], exempting)
       case _ => true
  }

  // ---------- the exempting shape ----------

  function Get(members: seq<Member>, name: Text): Option<Json> {
    if members == [] then None
    else if members[0].name == name then Some(members[0].value)
    else Get(members[1..], name)
  }

  const TOOL_NAMES: set<Text> := {
    Ascii("cmw.work_on"), Ascii("cmw.stop"), Ascii("cmw.status"), Ascii("cmw.complete"), Ascii("cmw.settings"),
    Ascii("cmw.notifications.setup")
  }

  /** The shape test. Looking up a list or an object in the set of tool names raises a type error. */
  function ControlToolShape(root: Json): Option<bool> {
    if !root.JObject? || Get(root.members, Ascii("method")) != Some(JString(Ascii("tools/call"))) then Some(false)
    else
      var params := Get(root.members, Ascii("params"));
      if params.None? || !params.value.JObject? then Some(false)
      else
        var name := Get(params.value.members, Ascii("name"));
        if name.Some? && (name.value.JArray? || name.value.JObject?) then None
        else if name.None? || !name.value.JString? || name.value.text !in TOOL_NAMES then Some(false)
        else
          var arguments := Get(params.value.members, Ascii("arguments"));
          Some(arguments.Some? && arguments.value.JObject?)
  }

  /** A `tools/call` message that names its tool with a list or an object. */
  predicate NamesToolWithContainer(root: Json) {
    root.JObject? && Get(root.members, Ascii("method")) == Some(JString(Ascii("tools/call")))
    && var params := Get(root.members, Ascii("params"));
    params.Some? && params.value.JObject?
    && var name := Get(params.value.members, Ascii("name"));
    name.Some? && (name.value.JArray? || name.value.JObject?)
  }

  /** A `tools/call` message whose parameters are `{"name": []}`. */
  function SmallMessage(): Json {
    JObject([Member(Ascii("method"), JString(Ascii("tools/call"))),
             Member(Ascii("params"), JObject([Member(Ascii("name"), JArray([]))]))])
  }

  lemma SmallMessageWithinLimits(exempting: bool)
    ensures Accepts(SmallMessage(), 1, [], exempting)
  {
    var params := SmallMessage().members[1].value;
    var path := [] + [Key(Ascii("params"))];
    assert Accepts(params.members[0].value, 3, path + [Key(Ascii("name"))], exempting);
    assert Accepts(params, 2, path, exempting);
    AsciiLength("tools/call");
    assert Accepts(JString(Ascii("tools/call")), 2, [] + [Key(Ascii("method"))], exempting);
  }

  /** It is within every limit, and the shape test raises on it all the same. */
  lemma SmallMessageRaises()
    ensures NamesToolWithContainer(SmallMessage())
    ensures forall exempting :: Accepts(SmallMessage(), 1, [], exempting)
  {
    assert Ascii("method")[0] != Ascii("params")[0];
    SmallMessageWithinLimits(true);
    SmallMessageWithinLimits(false);
  }

  /** A `tools/call` message of one of the six control tools, with an arguments object. */
  ghost predicate CallsControlTool(root: Json) {
    root.JObject? && Get(root.members, Ascii("method")) == Some(JString(Ascii("tools/call")))
    && exists params, name, arguments ::
         Get(root.members, Ascii("params")) == Some(JObject(params))
         && name in TOOL_NAMES && Get(params, Ascii("name")) == Some(JString(name))
         && Get(params, Ascii("arguments")) == Some(JObject(arguments))
  }

  /** The shape test exempts exactly these. */
  lemma ShapeExactly(root: Json)
    ensures ControlToolShape(root) == Some(true) <==> CallsControlTool(root)
    ensures ControlToolShape(root) == None <==> NamesToolWithContainer(root)
  {
    if ControlToolShape(root) == Some(true) {
      var params := Get(root.members, Ascii("params")).value.members;
      var name := Get(params, Ascii("name")).value.text;
      var arguments := Get(params, Ascii("arguments")).value.members;
      assert Get(root.members, Ascii("params")) == Some(JObject(params));
      assert Get(params, Ascii("name")) == Some(JString(name));
      assert Get(params, Ascii("arguments")) == Some(JObject(arguments));
    }
  }

  // ---------- what acceptance means for every part ----------

  /** `part` is found in `v` by following `path`. */
  ghost predicate Reaches(v: Json, path: Path, part: Json)
    decreases |path|
  {
    if path == [] then part == v
    else
      match v
      case JArray(items) =>
        path[0].Index? && path[0].position < |items| && Reaches(items[path[0].position], path[1..], part)
      case JObject(members) =>
        exists i :: 0 <= i < |members| && path[0] == Key(members[i].name) && Reaches(members[i].value, path[1..], part)
      case _ => false
  }

  /** Every part of an accepted value is accepted at its own depth and path. */
  lemma {:induction false} PartsAccepted(v: Json, depth: nat, base: Path, exempting: bool, path: Path, part: Json)
    requires Accepts(v, depth, base, exempting) && Reaches(v, path, part)
    ensures Accepts(part, depth + |path|, base + path, exempting)
    decreases |path|
  {
    if path == [] {
      assert base + path == base;
    } else {
      assert base + path == (base + [path[0]]) + path[1..];
      match v {
        case JArray(items) =>
          PartsAccepted(items[path[0].position], depth + 1, base + [path[0]], exempting, path[1..], part);
        case JObject(members) =>
          var i :| 0 <= i < |members| && path[0] == Key(members[i].name) && Reaches(members[i].value, path[1..], part);
          PartsAccepted(members[i].value, depth + 1, base + [path[0]], exempting, path[1..], part);
        case _ =>
      }
    }
  }

  /** What a part must be by itself. */
  predicate PartOk(part: Json, depth: nat, path: Path, exempting: bool) {
    && depth <= MAX_NESTING_DEPTH
    && (part.JString? ==> StringOk(part.text, path, exempting))
    && (part.JFloat? ==> part.finite)
    && (part.JArray? ==> |part.items| <= MAX_ARRAY_ITEMS)
  }

  /** A value that is not accepted has a part that is not as it must be. */
  lemma {:induction false} BadPart(v: Json, depth: nat, base: Path, exempting: bool) returns (path: Path, part: Json)
    requires !Accepts(v, depth, base, exempting)
    ensures Reaches(v, path, part) && !PartOk(part, depth + |path|, base + path, exempting)
    decreases v
  {
    path, part := [], v;
    assert base + [] == base;
    if PartOk(v, depth, base, exempting) {
      match v {
        case JArray(items) =>
          var i :| 0 <= i < |items| && !Accepts(items[i], depth + 1, base + [Index(i)], exempting);
          var inner;
          inner, part := BadPart(items[i], depth + 1, base + [Index(i)], exempting);
          path := [Index(i)] + inner;
          assert path[1..] == inner && base + path == (base + [Index(i)]) + inner;
        case JObject(members) =>
          var i :| 0 <= i < |members|
            && !Accepts(members[i].value, depth + 1, base + [Key(members[i].name)], exempting);
          var inner;
          inner, part := BadPart(members[i].value, depth + 1, base + [Key(members[i].name)], exempting);
          path := [Key(members[i].name)] + inner;
          assert path[1..] == inner && base + path == (base + [Key(members[i].name)]) + inner;
        case _ =>
      }
    }
  }

  /** A message is accepted exactly when every part of it, wherever it is nested, is as it must be. */
  lemma AcceptedExactly(root: Json, exempting: bool)
    ensures Accepts(root, 1, [], exempting) <==>
      forall path, part :: Reaches(root, path, part) ==> PartOk(part, 1 + |path|, path, exempting)
  {
    if Accepts(root, 1, [], exempting) {
      forall path, part | Reaches(root, path, part)
        ensures PartOk(part, 1 + |path|, path, exempting)
      {
        PartsAccepted(root, 1, [], exempting, path, part);
        assert [] + path == path;
      }
    } else {
      var path, part := BadPart(root, 1, [], exempting);
      assert [] + path == path;
      assert Reaches(root, path, part) && !PartOk(part, 1 + |path|, path, exempting);
    }
  }

  /** In an accepted message nothing is nested too deeply, and every string is within the limit, except possibly the
      session identifier of a control tool call. */
  lemma OverlongOnlySession(root: Json, exempting: bool, path: Path, text: Text)
    requires Accepts(root, 1, [], exempting) && Reaches(root, path, JString(text))
    ensures |path| < MAX_NESTING_DEPTH && ByteLength(text).Some?
    ensures ByteLength(text).value > MAX_STRING_BYTES ==> exempting && path == EXEMPT_PATH
  {
    PartsAccepted(root, 1, [], exempting, path, JString(text));
    assert [] + path == path;
  }

  // ---------- the walk ----------

  datatype Pending = Pending(value: Json, depth: nat, path: Path)

  function Size(v: Json): (n: nat)
    ensures n > 0
    decreases v, 1
  {
    match v
    case JArray(items) => 1 + ItemsSize(items)
    case JObject(members) => 1 + MembersSize(members)
    case _ => 1
  }

  function ItemsSize(items: seq<Json>): nat
    decreases items, 0
  {
    if items == [] then 0 else Size(items[0]) + ItemsSize(items[1..])
  }

  function MembersSize(members: seq<Member>): nat
    decreases members, 0
  {
    if members == [] then 0
    else
      assert members[0].value < members[0];
      Size(members[0].value) + MembersSize(members[1..])
  }

  /** The trees still on the stack; the walk ends because it shrinks. */
  function StackSize(stack: seq<Pending>): nat {
    if stack == [] then 0 else Size(stack[0].value) + StackSize(stack[1..])
  }

  lemma {:induction false} StackSizeSnoc(stack: seq<Pending>, p: Pending)
    ensures StackSize(stack + [p]) == StackSize(stack) + Size(p.value)
  {
    if stack == [] {
      assert StackSize([p]) == Size(p.value) + StackSize([]);
    } else {
      assert (stack + [p])[1..] == stack[1..] + [p];
      StackSizeSnoc(stack[1..], p);
    }
  }

  ghost predicate PendingOk(p: Pending, exempting: bool) {
    Accepts(p.value, p.depth, p.path, exempting)
  }

  ghost predicate AllOk(stack: seq<Pending>, exempting: bool) {
    forall i :: 0 <= i < |stack| ==> PendingOk(stack[i], exempting)
  }

  lemma AllOkSnoc(stack: seq<Pending>, p: Pending, exempting: bool)
    ensures AllOk(stack + [p], exempting) <==> AllOk(stack, exempting) && PendingOk(p, exempting)
  {
    var longer := stack + [p];
    assert longer[|stack|] == p && forall i :: 0 <= i < |stack| ==> longer[i] == stack[i];
  }

  lemma {:induction false} ItemsSizeSnoc(items: seq<Json>, v: Json)
    ensures ItemsSize(items + [v]) == ItemsSize(items) + Size(v)
  {
    if items == [] {
      assert ItemsSize([v]) == Size(v) + ItemsSize([]);
    } else {
      assert (items + [v])[1..] == items[1..] + [v];
      ItemsSizeSnoc(items[1..], v);
    }
  }

  lemma {:induction false} MembersSizeSnoc(members: seq<Member>, m: Member)
    ensures MembersSize(members + [m]) == MembersSize(members) + Size(m.value)
  {
    if members == [] {
      assert MembersSize([m]) == Size(m.value) + MembersSize([]);
    } else {
      assert (members + [m])[1..] == members[1..] + [m];
      MembersSizeSnoc(members[1..], m);
    }
  }

  method PushItems(base: seq<Pending>, items: seq<Json>, depth: nat, path: Path, ghost exempting: bool)
    returns (stack: seq<Pending>)
    ensures StackSize(stack) == StackSize(base) + ItemsSize(items)
    ensures AllOk(stack, exempting) <==>
      AllOk(base, exempting)
      && forall i :: 0 <= i < |items| ==> Accepts(items[i], depth + 1, path + [Index(i)], exempting)
  {
    stack := base;
    var k := 0;
    while k < |items|
      invariant 0 <= k <= |items|
      invariant StackSize(stack) == StackSize(base) + ItemsSize(items[..k])
      invariant AllOk(stack, exempting) <==>
        AllOk(base, exempting)
        && forall i :: 0 <= i < k ==> Accepts(items[i], depth + 1, path + [Index(i)], exempting)
    {
      var p := Pending(items[k], depth + 1, path + [Index(k)]);
      StackSizeSnoc(stack, p);
      AllOkSnoc(stack, p, exempting);
      ItemsSizeSnoc(items[..k], items[k]);
      assert items[..k + 1] == items[..k] + [items[k]];
      stack := stack + [p];
      k := k + 1;
    }
    assert items[..k] == items;
  }

  method PushMembers(base: seq<Pending>, members: seq<Member>, depth: nat, path: Path, ghost exempting: bool)
    returns (stack: seq<Pending>)
    ensures StackSize(stack) == StackSize(base) + MembersSize(members)
    ensures AllOk(stack, exempting) <==>
      AllOk(base, exempting)
      && forall i :: 0 <= i < |members| ==>
           Accepts(members[i].value, depth + 1, path + [Key(members[i].name)], exempting)
  {
    stack := base;
    var k := 0;
    while k < |members|
      invariant 0 <= k <= |members|
      invariant StackSize(stack) == StackSize(base) + MembersSize(members[..k])
      invariant AllOk(stack, exempting) <==>
        AllOk(base, exempting)
        && forall i :: 0 <= i < k ==>
             Accepts(members[i].value, depth + 1, path + [Key(members[i].name)], exempting)
    {
      var p := Pending(members[k].value, depth + 1, path + [Key(members[k].name)]);
      StackSizeSnoc(stack, p);
      AllOkSnoc(stack, p, exempting);
      MembersSizeSnoc(members[..k], members[k]);
      assert members[..k + 1] == members[..k] + [members[k]];
      stack := stack + [p];
      k := k + 1;
    }
    assert members[..k] == members;
  }

  /** Check one popped tree and push its children onto the rest of the stack. */
  method Visit(rest: seq<Pending>, top: Pending, exempting: bool) returns (ok: bool, stack: seq<Pending>)
    ensures ok ==> (AllOk(stack, exempting) <==> AllOk(rest, exempting) && PendingOk(top, exempting))
    ensures ok ==> StackSize(stack) < StackSize(rest) + Size(top.value)
    ensures !ok ==> !PendingOk(top, exempting)
  {
    stack := rest;
    if top.depth > MAX_NESTING_DEPTH {
      return false, stack;
    }
    match top.value {
      case JString(text) =>
        return StringOk(text, top.path, exempting), stack;
      case JObject(members) =>
        stack := PushMembers(stack, members, top.depth, top.path, exempting);
      case JArray(items) =>
        if |items| > MAX_ARRAY_ITEMS {
          return false, stack;
        }
        stack := PushItems(stack, items, top.depth, top.path, exempting);
      case JFloat(finite) =>
        return finite, stack;
      case _ =>
    }
    return true, stack;
  }

  datatype Verdict = Valid | LimitExceeded | TypeError

  /** The walk accepts exactly the trees that the recursive rule accepts, except that it raises a type error, whatever
      the tree, exactly on messages that name their tool with a list or an object. */
  method ValidateStructure(root: Json) returns (verdict: Verdict)
    ensures verdict.TypeError? <==> NamesToolWithContainer(root)
    ensures !NamesToolWithContainer(root) ==>
      (verdict.Valid? <==> Accepts(root, 1, [], CallsControlTool(root)))
  {
    var shape := ControlToolShape(root);
    ShapeExactly(root);
    if shape.None? {
      return TypeError;
    }
    var accepted := Walk(root, shape.value);
    return if accepted then Valid else LimitExceeded;
  }

  method Walk(root: Json, exempting: bool) returns (accepted: bool)
    ensures accepted <==> Accepts(root, 1, [], exempting)
  {
    var stack := [Pending(root, 1, [])];
    AllOkSnoc([], stack[0], exempting);
    assert [] + [stack[0]] == stack;
    while stack != []
      invariant AllOk(stack, exempting) <==> Accepts(root, 1, [], exempting)
      decreases StackSize(stack)
    {
      var top := stack[|stack| - 1];
      var rest := stack[..|stack| - 1];
      assert stack == rest + [top];
      AllOkSnoc(rest, top, exempting);
      StackSizeSnoc(rest, top);
      var ok;
      ok, stack := Visit(rest, top, exempting);
      if !ok {
        return false;
      }
    }
    return true;
  }

  // ---------- building objects ----------

  datatype MemberError = MemberLimit | MemberNameLimit | DuplicateMember

  predicate NameOk(name: Text) {
    var bytes := ByteLength(name);
    bytes.Some? && bytes.value <= MAX_STRING_BYTES
  }

  /** A member name is accepted exactly when it has an encoding within the limit of strings. */
  lemma NameOkExactly(name: Text)
    ensures NameOk(name) <==> AllEncodable(name) && |Encode(name)| <= MAX_STRING_BYTES
  {
    ByteLengthExactly(name);
  }

  predicate Repeated(pairs: seq<Member>, i: nat)
    requires i < |pairs|
  {
    exists j :: 0 <= j < i && pairs[j].name == pairs[i].name
  }

  /** The first pair with a bad or repeated name decides the error; without one, the object holds all pairs in order. */
  method ObjectPairs(pairs: seq<Member>) returns (result: Result<seq<Member>, MemberError>)
    ensures |pairs| > MAX_OBJECT_MEMBERS <==> result == Err(MemberLimit)
    ensures result.Ok? ==>
      result.value == pairs && forall i :: 0 <= i < |pairs| ==> NameOk(pairs[i].name) && !Repeated(pairs, i)
    ensures result.Err? && !result.error.MemberLimit? ==>
      exists i :: 0 <= i < |pairs|
        && (forall j :: 0 <= j < i ==> NameOk(pairs[j].name) && !Repeated(pairs, j))
        && (if NameOk(pairs[i].name) then result.error == DuplicateMember && Repeated(pairs, i)
            else result.error == MemberNameLimit)
  {
    if |pairs| > MAX_OBJECT_MEMBERS {
      return Err(MemberLimit);
    }
    var names: set<Text> := {};
    var values: seq<Member> := [];
    var i := 0;
    while i < |pairs|
      invariant 0 <= i <= |pairs|
      invariant values == pairs[..i]
      invariant forall n :: n in names <==> exists j :: 0 <= j < i && pairs[j].name == n
      invariant forall j :: 0 <= j < i ==> NameOk(pairs[j].name) && !Repeated(pairs, j)
    {
      if !NameOk(pairs[i].name) {
        return Err(MemberNameLimit);
      }
      if pairs[i].name in names {
        return Err(DuplicateMember);
      }
      names := names + {pairs[i].name};
      values := values + [pairs[i]];
      i := i + 1;
    }
    return Ok(values);
  }
}
