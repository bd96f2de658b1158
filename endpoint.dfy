/** The endpoint utilities (frontend/src/utils/endpoint.js). */
module Endpoint {
  import opened Wrappers
  import opened Text
  import opened Json
  import opened Sorting

  /** The HTTP methods in order of preference (line 1). */
  const MethodPriority: seq<string> := ["get", "post", "put", "patch", "delete"]

  /** Array.prototype.indexOf: the first position of `x`, or -1. */
  function IndexOf<T(==)>(s: seq<T>, x: T): (r: int)
    ensures -1 <= r < |s|
    ensures r >= 0 ==> s[r] == x && forall k :: 0 <= k < r ==> s[k] != x
    ensures r == -1 <==> x !in s
  {
    if |s| == 0 then -1
    else if s[0] == x then 0
    else
      var r := IndexOf(s[1..], x);
      if r == -1 then -1 else r + 1
  }

  function PriorityIndex(verb: string): (r: int)
    ensures -1 <= r < |MethodPriority|
    ensures r >= 0 ==> MethodPriority[r] == verb
    ensures r == -1 <==> verb !in MethodPriority
  {
    IndexOf(MethodPriority, verb)
  }

  /** The preference order is get, post, put, patch, delete. */
  lemma PriorityOrder()
    ensures PriorityIndex("get") == 0 && PriorityIndex("post") == 1 && PriorityIndex("put") == 2
    ensures PriorityIndex("patch") == 3 && PriorityIndex("delete") == 4
  {
  }

  // ---------------------------------------------------------------------------------------
  // buildPathWithParams (lines 3-10)

  /** The placeholder text `{key}` that the key's pattern matches. */
  function Placeholder(key: string): (r: string)
    ensures |r| == |key| + 2 && r[0] == '{'
  {
    "{" + key + "}"
  }

  /**
   * Keys whose `{key}` pattern is a literal: letters, digits, `_` and `-`, and not digits
   * alone (`{2}` would be a quantifier).
   */
  predicate LiteralKey(key: string)
  {
    && (forall i :: 0 <= i < |key| ==> ('a' <= key[i] <= 'z' || 'A' <= key[i] <= 'Z' || '0' <= key[i] <= '9' || key[i] == '_' || key[i] == '-'))
    && (exists i :: 0 <= i < |key| && !('0' <= key[i] <= '9'))
  }

  /**
   * String.prototype.replace with a global, case-insensitive literal pattern: scanning left
   * to right, each match is replaced and the scan resumes after it.
   */
  function ReplaceAll(s: string, pat: string, rep: string): string
    requires |pat| > 0
    decreases |s|
  {
    if |s| < |pat| then s
    else if EqualsIgnoreCase(s[..|pat|], pat) then rep + ReplaceAll(s[|pat|..], pat, rep)
    else [s[0]] + ReplaceAll(s[1..], pat, rep)
  }

  lemma LowerOfBrace(c: char)
    ensures LowerChar(c) == '{' <==> c == '{'
  {
  }

  /** Text without an opening brace passes through unchanged. */
  lemma {:induction false} ReplaceSkipsBraceFree(a: string, b: string, pat: string, rep: string)
    requires |pat| > 0 && pat[0] == '{'
    requires '{' !in a
    ensures ReplaceAll(a + b, pat, rep) == a + ReplaceAll(b, pat, rep)
  {
    if |a| > 0 {
      var s := a + b;
      assert s[0] == a[0];
      if |s| >= |pat| {
        LowerOfBrace(s[0]);
        assert LowerChar(s[..|pat|][0]) != LowerChar(pat[0]);
      }
      assert s[1..] == a[1..] + b;
      ReplaceSkipsBraceFree(a[1..], b, pat, rep);
    } else {
      assert a + b == b;
    }
  }

  /** A placeholder, in any letter case, is replaced by the value. */
  lemma ReplaceAtPlaceholder(p: string, b: string, pat: string, rep: string)
    requires |pat| > 0
    requires EqualsIgnoreCase(p, pat)
    ensures ReplaceAll(p + b, pat, rep) == rep + ReplaceAll(b, pat, rep)
  {
    var s := p + b;
    assert |p| == |pat|;
    assert s[..|pat|] == p;
    assert s[|pat|..] == b;
  }

  /** `value != null ? encodeURIComponent(value) : ''` (line 6). */
  function SafeValue(value: Option<Json>, encode: Json -> string): string
  {
    if Nullish(value) then "" else encode(value.value)
  }

  /** The template after substituting the first |params| entries, in entry order. */
  function Substituted(template: string, params: seq<(string, Option<Json>)>, encode: Json -> string): string
  {
    if |params| == 0 then template
    else
      var (key, value) := params[|params| - 1];
      ReplaceAll(Substituted(template, params[..|params| - 1], encode), Placeholder(key), SafeValue(value, encode))
  }

  /**
   * buildPathWithParams: each parameter's placeholders are replaced, in entry order, by its
   * encoded value, or by nothing when the value is null or undefined; with no parameters the
   * template comes back unchanged.
   */
  method BuildPathWithParams(template: string, params: seq<(string, Option<Json>)>, encode: Json -> string)
    returns (path: string)
    requires forall i :: 0 <= i < |params| ==> LiteralKey(params[i].0)
    ensures path == Substituted(template, params, encode)
    ensures |params| == 0 ==> path == template
  {
    path := template;
    var i := 0;
    while i < |params|
      invariant 0 <= i <= |params|
      invariant path == Substituted(template, params[..i], encode)
    {
      var (key, value) := params[i];
      var safeValue := SafeValue(value, encode);
      assert params[..i + 1][..i] == params[..i];
      path := ReplaceAll(path, Placeholder(key), safeValue);
      i := i + 1;
    }
    assert params[..i] == params;
  }

  /** Brace-free text is left as it is. */
  lemma ReplaceBraceFree(a: string, pat: string, rep: string)
    requires |pat| > 0 && pat[0] == '{'
    requires '{' !in a
    ensures ReplaceAll(a, pat, rep) == a
  {
    ReplaceSkipsBraceFree(a, "", pat, rep);
    assert a + "" == a;
  }

  /** One placeholder after brace-free text. */
  lemma ReplaceAfterBraceFree(head: string, p: string, rest: string, pat: string, rep: string)
    requires |pat| > 0 && pat[0] == '{'
    requires '{' !in head
    requires EqualsIgnoreCase(p, pat)
    ensures ReplaceAll(head + p + rest, pat, rep) == head + rep + ReplaceAll(rest, pat, rep)
  {
    assert head + p + rest == head + (p + rest);
    ReplaceSkipsBraceFree(head, p + rest, pat, rep);
    ReplaceAtPlaceholder(p, rest, pat, rep);
  }

  /** "{section}" does not match the pattern of "userId". */
  lemma OtherPlaceholderKept(tail: string)
    requires tail == "{section}"
    ensures ReplaceAll(tail, Placeholder("userId"), "user%20123") == tail
  {
    var pat := Placeholder("userId");
    assert !EqualsIgnoreCase(tail[..|pat|], pat) by {
      assert LowerChar(tail[..|pat|][1]) != LowerChar(pat[1]);
    }
    ReplaceBraceFree(tail[1..], pat, "user%20123");
    assert tail == [tail[0]] + tail[1..];
  }

  /** The first of two placeholders replaced, when the second does not match. */
  lemma FirstParameterReplaced(head: string, mid: string, user: string, section: string, rep: string)
    requires '{' !in head && '{' !in mid
    requires |user| > 0 && user[0] == '{'
    requires ReplaceAll(section, user, rep) == section
    ensures ReplaceAll(head + user + mid + section, user, rep) == head + rep + mid + section
  {
    assert ReplaceAll(head + user + (mid + section), user, rep) == head + rep + ReplaceAll(mid + section, user, rep) by {
      EqualsIgnoreCaseIffLower(user, user);
      ReplaceAfterBraceFree(head, user, mid + section, user, rep);
    }
    assert ReplaceAll(mid + section, user, rep) == mid + ReplaceAll(section, user, rep) by {
      ReplaceSkipsBraceFree(mid, section, user, rep);
    }
    assert head + user + mid + section == head + user + (mid + section);
    assert head + rep + (mid + section) == head + rep + mid + section;
  }

  lemma SecondParameterReplaced(done: string)
    requires '{' !in done
    ensures ReplaceAll(done + Placeholder("section"), Placeholder("section"), "settings") == done + "settings"
  {
    var section := Placeholder("section");
    assert done + section == done + section + "";
    ReplaceAfterBraceFree(done, section, "", section, "settings");
  }

  /**
   * The unit test of the source, with its template cut at the placeholders: both are
   * replaced, and the space in the first value is encoded.
   */
  lemma BuildPathExample(head: string, mid: string, encode: Json -> string)
    requires head == "/api/v2/users/" && mid == "/profile/"
    requires encode(JStr("user 123")) == "user%20123" && encode(JStr("settings")) == "settings"
    ensures Substituted(head + Placeholder("userId") + mid + Placeholder("section"),
                        [("userId", Some(JStr("user 123"))), ("section", Some(JStr("settings")))], encode)
            == head + "user%20123" + mid + "settings"
  {
    var template := head + Placeholder("userId") + mid + Placeholder("section");
    var params := [("userId", Some(JStr("user 123"))), ("section", Some(JStr("settings")))];
    assert params[..1] == [params[0]] && params[..1][..0] == [];
    assert SafeValue(params[0].1, encode) == "user%20123";
    assert SafeValue(params[1].1, encode) == "settings";
    OtherPlaceholderKept(Placeholder("section"));
    FirstParameterReplaced(head, mid, Placeholder("userId"), Placeholder("section"), "user%20123");
    var done := head + "user%20123" + mid;
    assert Substituted(template, params[..1], encode) == done + Placeholder("section");
    assert '{' !in done;
    SecondParameterReplaced(done);
    assert Substituted(template, params, encode)
        == ReplaceAll(Substituted(template, params[..1], encode), Placeholder("section"), "settings");
  }

  // ---------------------------------------------------------------------------------------
  // buildSampleFromSchema (lines 12-54)

  /**
   * A schema as the sampler reads it. Falsy is a missing or falsy schema; a truthy value that
   * is not an object reads like a Node with nothing set. `items` is Falsy when absent.
   */
  datatype Schema =
    | Falsy
    | Node(example: Option<Json>, defaultValue: Option<Json>, enumValues: Option<seq<Json>>,
           typeName: Option<Json>, properties: Properties, items: Schema,
           format: Option<Json>)

  /** A schema's `properties`: absent or falsy, or an object of property schemas in enumeration order. */
  datatype Properties = NoProperties | Properties(entries: seq<(string, Schema)>)

  /** The `{}` that stands in for missing items (line 41). */
  const EmptySchema: Schema := Node(None, None, None, None, NoProperties, Falsy, None)

  const NilUuid: string := "00000000-0000-0000-0000-000000000000"

  datatype Kind = ObjectKind | ArrayKind | BooleanKind | NumberKind | StringKind

  /**
   * The branch of the switch (lines 29-53): a truthy `type` names it, with unknown names
   * handled as strings; otherwise a schema with properties is an object and any other a string.
   */
  function KindOf(s: Schema): Kind
    requires s.Node?
  {
    if OptTruthy(s.typeName) then
      match s.typeName.value
      case JStr(t) =>
        if t == "object" then ObjectKind
        else if t == "array" then ArrayKind
        else if t == "boolean" then BooleanKind
        else if t == "integer" || t == "number" then NumberKind
        else StringKind
      case _ => StringKind
    else if s.properties.Properties? then ObjectKind
    else StringKind
  }

  /** The sample of a string schema (lines 47-52). */
  function StringSample(s: Schema): Json
    requires s.Node?
  {
    if s.format == Some(JStr("uuid")) then JStr(NilUuid) else JStr("string")
  }

  /**
   * buildSampleFromSchema. The empty schema that replaces missing items samples to
   * "string" (ItemsSampleOfMissing proves it), which the array case uses directly.
   */
  function Sample(s: Schema): Json
    decreases s
  {
    match s
    case Falsy => JObj([])
    case Node(example, defaultValue, enumValues, _, properties, items, _) =>
      if example.Some? then example.value
      else if defaultValue.Some? then defaultValue.value
      else if enumValues.Some? && |enumValues.value| > 0 then enumValues.value[0]
      else
        match KindOf(s)
        case ObjectKind =>
          JObj(if properties.Properties? then SampleProperties(properties, 0) else [])
        case ArrayKind => JArr([if items.Falsy? then JStr("string") else Sample(items)])
        case BooleanKind => JBool(false)
        case NumberKind => JNum(0.0)
        case StringKind => StringSample(s)
  }

  /** Each property's key with the sample of its schema, in order (lines 34-37). */
  function SampleProperties(props: Properties, k: nat): (r: seq<(string, Json)>)
    requires props.Properties? && k <= |props.entries|
    ensures |r| == |props.entries| - k
    decreases props, |props.entries| - k
  {
    if k == |props.entries| then []
    else
      assert props.entries[k] in props.entries;
      [(props.entries[k].0, Sample(props.entries[k].1))] + SampleProperties(props, k + 1)
  }

  /** A missing schema samples to an empty object. */
  lemma SampleOfMissing()
    ensures Sample(Falsy) == JObj([])
  {
  }

  /** The `{}` used for missing items samples to "string". */
  lemma ItemsSampleOfMissing()
    ensures Sample(EmptySchema) == JStr("string")
  {
  }

  /** `example` wins, then `default`, then the first `enum` value, before any generation. */
  lemma SamplePrecedence(s: Schema)
    requires s.Node?
    ensures s.example.Some? ==> Sample(s) == s.example.value
    ensures s.example.None? && s.defaultValue.Some? ==> Sample(s) == s.defaultValue.value
    ensures s.example.None? && s.defaultValue.None? && s.enumValues.Some? && |s.enumValues.value| > 0 ==>
      Sample(s) == s.enumValues.value[0]
  {
  }

  /** With no example, default or enum value, the sample is generated from the type. */
  predicate Generated(s: Schema)
  {
    s.Node? && s.example.None? && s.defaultValue.None? && (s.enumValues.None? || |s.enumValues.value| == 0)
  }

  /** An undeclared type is "object" when properties are present and "string" otherwise. */
  lemma TypeFallback(s: Schema)
    requires s.Node? && !OptTruthy(s.typeName)
    ensures s.properties.Properties? ==> KindOf(s) == ObjectKind
    ensures s.properties.NoProperties? ==> KindOf(s) == StringKind
  {
  }

  /** An object sample has exactly the schema's property keys, in order, each sampled in turn. */
  lemma ObjectSample(s: Schema)
    requires Generated(s) && KindOf(s) == ObjectKind
    ensures var props := if s.properties.Properties? then s.properties.entries else [];
      && Sample(s).JObj?
      && |Sample(s).members| == |props|
      && forall i :: 0 <= i < |props| ==>
           Sample(s).members[i].0 == props[i].0 && Sample(s).members[i].1 == Sample(props[i].1)
  {
    if s.properties.Properties? {
      SamplePropertiesPointwise(s.properties, 0);
    }
  }

  lemma {:induction false} SamplePropertiesPointwise(props: Properties, k: nat)
    requires props.Properties? && k <= |props.entries|
    ensures forall i :: k <= i < |props.entries| ==>
      SampleProperties(props, k)[i - k] == (props.entries[i].0, Sample(props.entries[i].1))
    decreases |props.entries| - k
  {
    if k < |props.entries| {
      SamplePropertiesPointwise(props, k + 1);
    }
  }

  /** An array sample is a one-element list holding the sample of its items, or of `{}`. */
  lemma ArraySample(s: Schema)
    requires Generated(s) && KindOf(s) == ArrayKind
    ensures Sample(s) == JArr([Sample(if s.items.Falsy? then EmptySchema else s.items)])
  {
  }

  /** Scalars: false, 0, the nil UUID for a uuid string, and "string" for any other. */
  lemma ScalarSamples(s: Schema)
    requires Generated(s)
    ensures KindOf(s) == BooleanKind ==> Sample(s) == JBool(false)
    ensures KindOf(s) == NumberKind ==> Sample(s) == JNum(0.0)
    ensures KindOf(s) == StringKind && s.format == Some(JStr("uuid")) ==> Sample(s) == JStr(NilUuid)
    ensures KindOf(s) == StringKind && s.format != Some(JStr("uuid")) ==> Sample(s) == JStr("string")
  {
  }

  function TypedSchema(t: string): Schema
  {
    Node(None, None, None, Some(JStr(t)), NoProperties, Falsy, None)
  }

  /** The unit test of the source: a nested object with a uuid, a default and an array. */
  lemma SampleExample()
    ensures var id := Node(None, None, None, Some(JStr("string")), NoProperties, Falsy, Some(JStr("uuid")));
      var active := Node(None, Some(JBool(true)), None, Some(JStr("boolean")), NoProperties, Falsy, None);
      var metrics := Node(None, None, None, Some(JStr("array")), NoProperties, TypedSchema("integer"), None);
      var props := Properties([("id", id), ("active", active), ("metrics", metrics)]);
      Sample(Node(None, None, None, Some(JStr("object")), props, Falsy, None))
        == JObj([("id", JStr(NilUuid)), ("active", JBool(true)), ("metrics", JArr([JNum(0.0)]))])
  {
    var id := Node(None, None, None, Some(JStr("string")), NoProperties, Falsy, Some(JStr("uuid")));
    var active := Node(None, Some(JBool(true)), None, Some(JStr("boolean")), NoProperties, Falsy, None);
    var metrics := Node(None, None, None, Some(JStr("array")), NoProperties, TypedSchema("integer"), None);
    var props := Properties([("id", id), ("active", active), ("metrics", metrics)]);
    assert KindOf(TypedSchema("integer")) == NumberKind;
    assert Sample(metrics) == JArr([JNum(0.0)]);
    assert Sample(id) == JStr(NilUuid);
    assert Sample(active) == JBool(true);
    SamplePropertiesPointwise(props, 0);
    assert SampleProperties(props, 0)[0] == ("id", Sample(id));
    assert SampleProperties(props, 0)[1] == ("active", Sample(active));
    assert props.entries[2] == ("metrics", metrics);
    assert SampleProperties(props, 0)[2 - 0] == (props.entries[2].0, Sample(props.entries[2].1));
    assert SampleProperties(props, 0) == [("id", JStr(NilUuid)), ("active", JBool(true)), ("metrics", JArr([JNum(0.0)]))];
  }

  // ---------------------------------------------------------------------------------------
  // pickFirstEndpoint (lines 56-71)

  /** A path item: its properties, keyed by method name. */
  type Methods = seq<(string, Json)>

  datatype Choice = Choice(path: string, verb: string, operation: Json)

  predicate Offers(methods: Methods, verb: string)
  {
    OptTruthy(Lookup(methods, verb))
  }

  /** The position in MethodPriority of the first method the path item offers. */
  function FirstOffered(methods: Methods): (r: Option<nat>)
    ensures r.Some? ==> r.value < |MethodPriority| && Offers(methods, MethodPriority[r.value])
    ensures r.Some? ==> forall k :: 0 <= k < r.value ==> !Offers(methods, MethodPriority[k])
    ensures r.None? <==> forall k :: 0 <= k < |MethodPriority| ==> !Offers(methods, MethodPriority[k])
  {
    FirstOfferedFrom(methods, 0)
  }

  function FirstOfferedFrom(methods: Methods, k: nat): (r: Option<nat>)
    requires k <= |MethodPriority|
    ensures r.Some? ==> k <= r.value < |MethodPriority| && Offers(methods, MethodPriority[r.value])
    ensures r.Some? ==> forall l :: k <= l < r.value ==> !Offers(methods, MethodPriority[l])
    ensures r.None? <==> forall l :: k <= l < |MethodPriority| ==> !Offers(methods, MethodPriority[l])
    decreases |MethodPriority| - k
  {
    if k == |MethodPriority| then None
    else if Offers(methods, MethodPriority[k]) then Some(k)
    else FirstOfferedFrom(methods, k + 1)
  }

  function Keys<V>(members: seq<(string, V)>): (r: seq<string>)
    ensures |r| == |members| && forall i :: 0 <= i < |r| ==> r[i] == members[i].0
  {
    seq(|members|, i requires 0 <= i < |members| => members[i].0)
  }

  /** A path (a key of `paths`) whose item offers some method of MethodPriority. */
  predicate HasEndpoint(paths: seq<(string, Methods)>, path: string)
  {
    Lookup(paths, path).Some? && FirstOffered(Lookup(paths, path).value).Some?
  }

  /**
   * The answer pickFirstEndpoint must give: nothing when no path offers a preferred method;
   * otherwise a path that does, no later in code-unit order than any other that does, with
   * its most preferred method and that method's operation.
   */
  predicate IsFirstEndpoint(paths: seq<(string, Methods)>, r: Option<Choice>)
  {
    if r.None? then forall i :: 0 <= i < |paths| ==> !HasEndpoint(paths, paths[i].0)
    else
      && HasEndpoint(paths, r.value.path)
      && r.value == ChoiceAt(paths, r.value.path)
      && forall i :: 0 <= i < |paths| && HasEndpoint(paths, paths[i].0) ==> CodeUnitLe(r.value.path, paths[i].0)
  }

  /** The path with its most preferred offered method and that method's operation. */
  function ChoiceAt(paths: seq<(string, Methods)>, path: string): (c: Choice)
    requires HasEndpoint(paths, path)
  {
    var methods := Lookup(paths, path).value;
    var verb := MethodPriority[FirstOffered(methods).value];
    Choice(path, verb, Lookup(methods, verb).value)
  }

  /** pickFirstEndpoint: the paths in sorted order, and for each the methods in priority order. */
  method PickFirstEndpoint(paths: seq<(string, Methods)>) returns (r: Option<Choice>)
    ensures IsFirstEndpoint(paths, r)
  {
    var keys := Keys(paths);
    var sorted := SortBy(keys, CodeUnitLe);
    var i := 0;
    while i < |sorted|
      invariant 0 <= i <= |sorted|
      invariant forall k :: 0 <= k < i ==> !HasEndpoint(paths, sorted[k])
    {
      KeyIsPresent(paths, keys, sorted, i);
      var c := EndpointOf(paths, sorted[i]);
      if c.Some? {
        SortedFirstIsLeast(paths, keys, i);
        return c;
      }
      NoEndpointYet(paths, sorted, i);
      i := i + 1;
    }
    NoneIsFirst(paths, keys, sorted);
    r := None;
  }

  /** One path (lines 59-68): its first offered method in priority order, if any. */
  method EndpointOf(paths: seq<(string, Methods)>, path: string) returns (c: Option<Choice>)
    requires Lookup(paths, path).Some?
    ensures c.Some? <==> HasEndpoint(paths, path)
    ensures c.Some? ==> c.value == ChoiceAt(paths, path)
  {
    var methods := Lookup(paths, path).value;
    var j := FirstPreferred(methods);
    if j.Some? {
      var verb := MethodPriority[j.value];
      c := Some(Choice(path, verb, Lookup(methods, verb).value));
    } else {
      c := None;
    }
  }

  lemma NoEndpointYet(paths: seq<(string, Methods)>, sorted: seq<string>, i: nat)
    requires i < |sorted|
    requires forall k :: 0 <= k < i ==> !HasEndpoint(paths, sorted[k])
    requires !HasEndpoint(paths, sorted[i])
    ensures forall k :: 0 <= k < i + 1 ==> !HasEndpoint(paths, sorted[k])
  {
  }

  /** When no sorted key has an endpoint, no path has one. */
  lemma NoneIsFirst(paths: seq<(string, Methods)>, keys: seq<string>, sorted: seq<string>)
    requires keys == Keys(paths) && multiset(sorted) == multiset(keys)
    requires forall k :: 0 <= k < |sorted| ==> !HasEndpoint(paths, sorted[k])
    ensures IsFirstEndpoint(paths, None)
  {
    forall k | 0 <= k < |paths| ensures !HasEndpoint(paths, paths[k].0) {
      assert keys[k] in multiset(sorted);
    }
  }

  /** The inner loop (lines 60-68): the methods in priority order, up to the first one offered. */
  method FirstPreferred(methods: Methods) returns (r: Option<nat>)
    ensures r == FirstOffered(methods)
  {
    var j := 0;
    while j < |MethodPriority|
      invariant 0 <= j <= |MethodPriority|
      invariant FirstOffered(methods) == FirstOfferedFrom(methods, j)
    {
      if Offers(methods, MethodPriority[j]) {
        return Some(j);
      }
      j := j + 1;
    }
    r := None;
  }

  /** Every sorted key is a key of `paths`. */
  lemma KeyIsPresent(paths: seq<(string, Methods)>, keys: seq<string>, sorted: seq<string>, i: nat)
    requires keys == Keys(paths)
    requires multiset(sorted) == multiset(keys) && i < |sorted|
    ensures Lookup(paths, sorted[i]).Some?
  {
    assert sorted[i] in multiset(keys);
    var k :| 0 <= k < |keys| && keys[k] == sorted[i];
    assert paths[k].0 == sorted[i];
  }

  /** The first path of the sorted keys that has an endpoint precedes every other that has one. */
  lemma SortedFirstIsLeast(paths: seq<(string, Methods)>, keys: seq<string>, i: nat)
    requires keys == Keys(paths)
    requires i < |SortBy(keys, CodeUnitLe)|
    requires forall k :: 0 <= k < i ==> !HasEndpoint(paths, SortBy(keys, CodeUnitLe)[k])
    requires HasEndpoint(paths, SortBy(keys, CodeUnitLe)[i])
    ensures IsFirstEndpoint(paths, Some(ChoiceAt(paths, SortBy(keys, CodeUnitLe)[i])))
  {
    var sorted := SortBy(keys, CodeUnitLe);
    CodeUnitOrder();
    SortBySorted(keys, CodeUnitLe);
    forall m | 0 <= m < |paths| && HasEndpoint(paths, paths[m].0) ensures CodeUnitLe(sorted[i], paths[m].0) {
      assert keys[m] in multiset(sorted);
      var k :| 0 <= k < |sorted| && sorted[k] == keys[m];
      assert i <= k;
      SortedLe(sorted, CodeUnitLe, i, k);
    }
  }

  /** "/bar" precedes "/foo" in code-unit order: 'b' < 'f' at the second unit. */
  lemma BarBeforeFoo(foo: string, bar: string)
    requires foo == "/foo" && bar == "/bar"
    ensures !CodeUnitLe(foo, bar)
  {
    assert foo[0] == bar[0] == '/' && foo[1] == 'f' && bar[1] == 'b';
    var a, b := CodeUnits(foo), CodeUnits(bar);
    assert a == [47] + CodeUnits(foo[1..]);
    assert b == [47] + CodeUnits(bar[1..]);
    assert CodeUnits(foo[1..]) == [102] + CodeUnits(foo[2..]);
    assert CodeUnits(bar[1..]) == [98] + CodeUnits(bar[2..]);
    assert |a[1..]| > 0 && a[1..][0] == 102 && b[1..][0] == 98;
    assert !UnitsLe(a[1..], b[1..]);
    assert a[0] == b[0] == 47;
  }

  /** The path items of the source's unit test: "/foo" offers only post, "/bar" only get. */
  lemma ExamplePathItems(paths: seq<(string, Methods)>, foo: string, bar: string)
    requires foo == "/foo" && bar == "/bar"
    requires paths == [(foo, [("post", JObj([("summary", JStr("Create"))]))]),
                       (bar, [("get", JObj([("summary", JStr("Read"))]))])]
    ensures HasEndpoint(paths, foo) && HasEndpoint(paths, bar)
    ensures MethodPriority[FirstOffered(Lookup(paths, bar).value).value] == "get"
    ensures forall p :: Lookup(paths, p).Some? ==> p == foo || p == bar
  {
    assert FirstOffered(paths[1].1) == Some(0);
    assert FirstOffered(paths[0].1) == Some(1);
  }

  /** The unit test of the source: "/bar" sorts first and offers "get". */
  lemma PickFirstExample(r: Option<Choice>, foo: string, bar: string)
    requires foo == "/foo" && bar == "/bar"
    requires IsFirstEndpoint([(foo, [("post", JObj([("summary", JStr("Create"))]))]),
                              (bar, [("get", JObj([("summary", JStr("Read"))]))])], r)
    ensures r.Some? && r.value.path == bar && r.value.verb == "get"
  {
    var paths := [(foo, [("post", JObj([("summary", JStr("Create"))]))]),
                  (bar, [("get", JObj([("summary", JStr("Read"))]))])];
    ExamplePathItems(paths, foo, bar);
    BarBeforeFoo(foo, bar);
    assert r.Some? by {
      assert HasEndpoint(paths, paths[1].0);
    }
    assert HasEndpoint(paths, paths[1].0);
    assert r.value.path != foo;
  }
}
