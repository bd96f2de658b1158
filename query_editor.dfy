/**
 * The request logic of the query editor (frontend/src/components/QueryEditor.jsx): the
 * parameters sent, the request body, the parameter definitions of an operation, their
 * initial values and the check for a missing required path parameter.
 */
module QueryEditor {
  import opened Wrappers
  import opened Text
  import opened Json
  import opened Seqs
  import opened Endpoint

  /** The entries of a parameter object in enumeration order; None stands for undefined. */
  type Entries = seq<(string, Option<Json>)>

  function OrEmpty<T>(s: Option<seq<T>>): (r: seq<T>)
    ensures s.None? ==> r == []
    ensures s.Some? ==> r == s.value
  {
    if s.Some? then s.value else []
  }

  // ---------------------------------------------------------------------------------------
  // sanitizeParams (lines 5-13)

  /** A value that is sent: not undefined, not null, and not blank once printed and trimmed. */
  predicate Keep(value: Option<Json>)
  {
    value.Some? && !value.value.JNull? && !FormIsBlank(value.value)
  }

  predicate KeepEntry(entry: (string, Option<Json>))
  {
    Keep(entry.1)
  }

  /** The entries sanitizeParams keeps, in their order. */
  function Kept(entries: Entries): Entries
  {
    Filter(entries, KeepEntry)
  }

  /**
   * sanitizeParams: the entries of a missing object are none; each entry is copied to the
   * result, unchanged, when its value is kept.
   */
  method SanitizeParams(params: Option<Entries>) returns (acc: Entries)
    ensures acc == Kept(OrEmpty(params))
  {
    var entries := OrEmpty(params);
    acc := [];
    var i := 0;
    while i < |entries|
      invariant 0 <= i <= |entries|
      invariant acc == Filter(entries[..i], KeepEntry)
    {
      var (key, value) := entries[i];
      assert entries[..i + 1][..i] == entries[..i];
      if value.Some? && !value.value.JNull? && !FormIsBlank(value.value) {
        acc := acc + [(key, value)];
      }
      i := i + 1;
    }
    assert entries[..i] == entries;
  }

  /** An entry is sent exactly when it is in the object and its value is kept; values are unchanged. */
  lemma KeptEntries(entries: Entries)
    ensures forall i :: 0 <= i < |Kept(entries)| ==> Kept(entries)[i] in entries && Keep(Kept(entries)[i].1)
    ensures forall i :: 0 <= i < |entries| && Keep(entries[i].1) ==> entries[i] in Kept(entries)
    ensures (forall i :: 0 <= i < |entries| ==> Keep(entries[i].1)) ==> Kept(entries) == entries
  {
    if forall i :: 0 <= i < |entries| ==> Keep(entries[i].1) {
      FilterAllKept(entries, KeepEntry);
    }
  }

  /** Sanitizing sanitized parameters changes nothing. */
  lemma SanitizeIdempotent(entries: Entries)
    ensures Kept(Kept(entries)) == Kept(entries)
  {
    FilterIdempotent(entries, KeepEntry);
  }

  /** What is dropped: undefined, null, blank strings, and the arrays that print blank. */
  lemma DroppedValues(s: string)
    ensures !Keep(None) && !Keep(Some(JNull))
    ensures Blank(s) <==> !Keep(Some(JStr(s)))
    ensures !Keep(Some(JArr([]))) && !Keep(Some(JArr([JNull])))
    ensures Keep(Some(JNum(0.0))) && Keep(Some(JBool(false)))
  {
  }

  // ---------------------------------------------------------------------------------------
  // parseBody (lines 15-25)

  const BodyNotJson: string := "Request body must be valid JSON"

  /**
   * parseBody with JSON.parse as `parse` (None for a syntax error): no body for a text that
   * trims to nothing, else the parsed value, else the error.
   */
  function ParseBody(text: string, parse: string -> Option<Json>): (r: Result<Option<Json>, string>)
    ensures r == Ok(None) <==> Blank(text)
    ensures !Blank(text) ==> (r.Ok? <==> parse(text).Some?)
    ensures r.Ok? && !Blank(text) ==> r.value == parse(text)
    ensures r.Err? ==> r.error == BodyNotJson
  {
    TrimEmptyIffBlank(text);
    if Trim(text) == "" then Ok(None)
    else
      match parse(text)
      case Some(v) => Ok(Some(v))
      case None => Err(BodyNotJson)
  }

  // ---------------------------------------------------------------------------------------
  // parameterDefinitions (lines 43-70)

  /** A parameter object as the editor reads it; None fields are undefined. */
  datatype Param = Param(name: Option<string>, location: Option<string>, required: Option<Json>,
                         example: Option<Json>, defaultValue: Option<Json>)

  /** The selected operation, if any, with its `parameters` list; None entries are falsy ones. */
  datatype OperationInfo = NoOperation | HasOperation(parameters: Option<seq<Option<Param>>>)

  predicate IsPresent(p: Option<Param>)
  {
    p.Some?
  }

  function Unwrap(ps: seq<Option<Param>>): (r: seq<Param>)
    requires forall i :: 0 <= i < |ps| ==> ps[i].Some?
    ensures |r| == |ps| && forall i :: 0 <= i < |r| ==> Some(r[i]) == ps[i]
  {
    seq(|ps|, i requires 0 <= i < |ps| && ps[i].Some? => ps[i].value)
  }

  /** The path item's parameters, then the operation's, without the falsy entries (lines 46-49). */
  function Combined(pathParameters: Option<seq<Option<Param>>>, parameters: Option<seq<Option<Param>>>): seq<Param>
  {
    Unwrap(Filter(OrEmpty(pathParameters) + OrEmpty(parameters), IsPresent))
  }

  function Names(s: seq<Param>): (r: seq<Option<string>>)
    ensures |r| == |s| && forall i :: 0 <= i < |s| ==> r[i] == s[i].name
  {
    seq(|s|, i requires 0 <= i < |s| => s[i].name)
  }

  /** The parameters whose name no earlier parameter has, in order (the `seen` set). */
  function Firsts(s: seq<Param>): seq<Param>
    decreases |s|
  {
    if |s| == 0 then []
    else
      var init := s[..|s| - 1];
      if s[|s| - 1].name in Names(init) then Firsts(init) else Firsts(init) + [s[|s| - 1]]
  }

  predicate InPath(p: Param)
  {
    p.location == Some("path")
  }

  predicate InQuery(p: Param)
  {
    p.location == Some("query")
  }

  /**
   * parameterDefinitions: nothing without an operation; otherwise the first parameter of
   * each name, path-item parameters before the operation's, split by location into the
   * path list and the query list.
   */
  method ParameterDefinitions(operation: OperationInfo, pathParameters: Option<seq<Option<Param>>>)
    returns (pathList: seq<Param>, queryList: seq<Param>)
    ensures operation.NoOperation? ==> pathList == [] && queryList == []
    ensures operation.HasOperation? ==>
      var definitions := Firsts(Combined(pathParameters, operation.parameters));
      pathList == Filter(definitions, InPath) && queryList == Filter(definitions, InQuery)
  {
    if operation.NoOperation? {
      return [], [];
    }
    var combined := Combined(pathParameters, operation.parameters);
    pathList, queryList := [], [];
    var seen: set<Option<string>> := {};
    var i := 0;
    while i < |combined|
      invariant 0 <= i <= |combined|
      invariant forall n :: n in seen <==> n in Names(combined[..i])
      invariant pathList == Filter(Firsts(combined[..i]), InPath)
      invariant queryList == Filter(Firsts(combined[..i]), InQuery)
    {
      var param := combined[i];
      FirstsStep(combined, i);
      if param.name !in seen {
        seen := seen + {param.name};
        FilterSnoc(Firsts(combined[..i]), param, InPath);
        FilterSnoc(Firsts(combined[..i]), param, InQuery);
        if param.location == Some("path") {
          pathList := pathList + [param];
        }
        if param.location == Some("query") {
          queryList := queryList + [param];
        }
      }
      i := i + 1;
    }
    assert combined[..i] == combined;
  }

  /** One more parameter: it is a definition exactly when its name is new. */
  lemma FirstsStep(s: seq<Param>, i: nat)
    requires i < |s|
    ensures Names(s[..i + 1]) == Names(s[..i]) + [s[i].name]
    ensures s[i].name in Names(s[..i]) ==> Firsts(s[..i + 1]) == Firsts(s[..i])
    ensures s[i].name !in Names(s[..i]) ==> Firsts(s[..i + 1]) == Firsts(s[..i]) + [s[i]]
  {
    assert s[..i + 1][..i] == s[..i];
  }

  /** The first position of a name among the combined parameters. */
  function FirstIndex(s: seq<Param>, name: Option<string>): int
  {
    IndexOf(Names(s), name)
  }

  /** The first position of `x` in a concatenation: in the first part if it is there. */
  lemma {:induction false} IndexOfAppend<T>(xs: seq<T>, ys: seq<T>, x: T)
    ensures x in xs ==> IndexOf(xs + ys, x) == IndexOf(xs, x)
    ensures x !in xs && x in ys ==> IndexOf(xs + ys, x) == |xs| + IndexOf(ys, x)
    decreases |xs|
  {
    if |xs| == 0 {
      assert xs + ys == ys;
    } else if xs[0] != x {
      assert (xs + ys)[0] == xs[0];
      assert (xs + ys)[1..] == xs[1..] + ys;
      IndexOfAppend(xs[1..], ys, x);
    } else {
      assert (xs + ys)[0] == x;
    }
  }

  lemma NamesPrefix(s: seq<Param>)
    requires |s| > 0
    ensures Names(s) == Names(s[..|s| - 1]) + [s[|s| - 1].name]
  {
  }

  /** Every name of the combined parameters has a definition. */
  lemma {:induction false} FirstsCover(s: seq<Param>)
    ensures forall n :: n in Names(s) ==> n in Names(Firsts(s))
    decreases |s|
  {
    if |s| > 0 {
      var init, last := s[..|s| - 1], s[|s| - 1];
      FirstsCover(init);
      NamesPrefix(s);
      if last.name !in Names(init) {
        assert Names(Firsts(init) + [last]) == Names(Firsts(init)) + [last.name];
      }
    }
  }

  /** Each definition is the first parameter with its name. */
  lemma {:induction false} FirstsIndexed(s: seq<Param>)
    ensures forall a :: 0 <= a < |Firsts(s)| ==>
      0 <= FirstIndex(s, Firsts(s)[a].name) < |s| && Firsts(s)[a] == s[FirstIndex(s, Firsts(s)[a].name)]
    decreases |s|
  {
    if |s| > 0 {
      var init, last := s[..|s| - 1], s[|s| - 1];
      FirstsIndexed(init);
      NamesPrefix(s);
      assert s == init + [last];
      OldDefinitionsStay(init, last);
      if last.name !in Names(init) {
        IndexOfAppend(Names(init), [last.name], last.name);
      }
    }
  }

  /** Appending a parameter does not move the first occurrence of an earlier definition's name. */
  lemma OldDefinitionsStay(init: seq<Param>, last: Param)
    requires forall a :: 0 <= a < |Firsts(init)| ==>
      0 <= FirstIndex(init, Firsts(init)[a].name) < |init| && Firsts(init)[a] == init[FirstIndex(init, Firsts(init)[a].name)]
    ensures forall a :: 0 <= a < |Firsts(init)| ==>
      FirstIndex(init + [last], Firsts(init)[a].name) == FirstIndex(init, Firsts(init)[a].name)
  {
    NamesPrefix(init + [last]);
    assert (init + [last])[..|init|] == init;
    var f0 := Firsts(init);
    forall a | 0 <= a < |f0|
      ensures FirstIndex(init + [last], f0[a].name) == FirstIndex(init, f0[a].name)
    {
      assert Names(init)[FirstIndex(init, f0[a].name)] == f0[a].name;
      IndexOfAppend(Names(init), [last.name], f0[a].name);
    }
  }

  /** The definitions come in the order of their names' first occurrences. */
  lemma {:induction false} FirstsOrdered(s: seq<Param>)
    ensures forall a, b :: 0 <= a < b < |Firsts(s)| ==>
      FirstIndex(s, Firsts(s)[a].name) < FirstIndex(s, Firsts(s)[b].name)
    decreases |s|
  {
    if |s| > 0 {
      var init, last := s[..|s| - 1], s[|s| - 1];
      FirstsOrdered(init);
      FirstsIndexed(init);
      assert s == init + [last];
      OldDefinitionsStay(init, last);
      if last.name !in Names(init) {
        NamesPrefix(s);
        IndexOfAppend(Names(init), [last.name], last.name);
        var f0 := Firsts(init);
        var f := f0 + [last];
        forall a, b | 0 <= a < b < |f| ensures FirstIndex(s, f[a].name) < FirstIndex(s, f[b].name) {
          if b < |f0| {
            assert f[a] == f0[a] && f[b] == f0[b];
          } else {
            assert f[a] == f0[a] && f[b] == last;
          }
        }
      }
    }
  }

  /**
   * The definitions: each name at most once; exactly the names of the combined parameters;
   * each the first parameter with its name; in the order of those first occurrences.
   */
  lemma FirstsFacts(s: seq<Param>)
    ensures forall a, b :: 0 <= a < b < |Firsts(s)| ==> Firsts(s)[a].name != Firsts(s)[b].name
    ensures forall n :: n in Names(Firsts(s)) <==> n in Names(s)
    ensures forall a :: 0 <= a < |Firsts(s)| ==>
      0 <= FirstIndex(s, Firsts(s)[a].name) < |s| && Firsts(s)[a] == s[FirstIndex(s, Firsts(s)[a].name)]
    ensures forall a, b :: 0 <= a < b < |Firsts(s)| ==>
      FirstIndex(s, Firsts(s)[a].name) < FirstIndex(s, Firsts(s)[b].name)
  {
    FirstsCover(s);
    FirstsIndexed(s);
    FirstsOrdered(s);
    var f := Firsts(s);
    forall n | n in Names(f) ensures n in Names(s) {
      var a :| 0 <= a < |f| && Names(f)[a] == n;
      assert Names(s)[FirstIndex(s, f[a].name)] == n;
    }
  }

  /** One definition: the first parameter with its name. */
  lemma FirstsAt(s: seq<Param>, a: nat)
    requires a < |Firsts(s)|
    ensures 0 <= FirstIndex(s, Firsts(s)[a].name) < |s| && Firsts(s)[a] == s[FirstIndex(s, Firsts(s)[a].name)]
  {
    FirstsFacts(s);
  }

  /** The present path-item parameters, then the present operation parameters. */
  lemma CombinedSplits(pathParameters: Option<seq<Option<Param>>>, parameters: Option<seq<Option<Param>>>)
    ensures Combined(pathParameters, parameters)
      == Unwrap(Filter(OrEmpty(pathParameters), IsPresent)) + Unwrap(Filter(OrEmpty(parameters), IsPresent))
  {
    FilterAppend(OrEmpty(pathParameters), OrEmpty(parameters), IsPresent);
  }

  /** In a concatenation, a definition whose name the first part has comes from the first part. */
  lemma FirstOfConcat(xs: seq<Param>, ys: seq<Param>, a: nat)
    requires a < |Firsts(xs + ys)| && Firsts(xs + ys)[a].name in Names(xs)
    ensures 0 <= FirstIndex(xs, Firsts(xs + ys)[a].name) < |xs|
    ensures Firsts(xs + ys)[a] == xs[FirstIndex(xs, Firsts(xs + ys)[a].name)]
  {
    var s := xs + ys;
    var n := Firsts(s)[a].name;
    FirstsAt(s, a);
    FirstIndexConcat(xs, ys, n);
    assert s[FirstIndex(xs, n)] == xs[FirstIndex(xs, n)];
  }

  /**
   * A name the first part has is first found in the first part.
   * Keep the append equality below in this lemma, away from any context that mentions
   * Firsts: with both in one proof, Dafny 4.11 derives false.
   */
  lemma FirstIndexConcat(xs: seq<Param>, ys: seq<Param>, n: Option<string>)
    requires n in Names(xs)
    ensures 0 <= FirstIndex(xs, n) < |xs| && FirstIndex(xs + ys, n) == FirstIndex(xs, n)
  {
    assert Names(xs + ys) == Names(xs) + Names(ys);
    IndexOfAppend(Names(xs), Names(ys), n);
  }

  /** A definition whose name the path item declares is the path item's first parameter of that name. */
  lemma PathItemParametersWin(pathParameters: Option<seq<Option<Param>>>, parameters: Option<seq<Option<Param>>>)
    ensures var pathItem := Unwrap(Filter(OrEmpty(pathParameters), IsPresent));
      var definitions := Firsts(Combined(pathParameters, parameters));
      forall a :: (0 <= a < |definitions| && definitions[a].name in Names(pathItem)) ==>
        0 <= FirstIndex(pathItem, definitions[a].name) < |pathItem| &&
        definitions[a] == pathItem[FirstIndex(pathItem, definitions[a].name)]
  {
    var pathItem := Unwrap(Filter(OrEmpty(pathParameters), IsPresent));
    var operationItem := Unwrap(Filter(OrEmpty(parameters), IsPresent));
    CombinedSplits(pathParameters, parameters);
    var definitions := Firsts(pathItem + operationItem);
    forall a | 0 <= a < |definitions| && definitions[a].name in Names(pathItem)
      ensures 0 <= FirstIndex(pathItem, definitions[a].name) < |pathItem|
      ensures definitions[a] == pathItem[FirstIndex(pathItem, definitions[a].name)]
    {
      FirstOfConcat(pathItem, operationItem, a);
    }
  }

  /** Each list holds definitions of its location only. */
  lemma ListsHoldTheirLocation(combined: seq<Param>)
    ensures forall a :: 0 <= a < |Filter(Firsts(combined), InPath)| ==>
      Filter(Firsts(combined), InPath)[a] in combined && InPath(Filter(Firsts(combined), InPath)[a])
    ensures forall a :: 0 <= a < |Filter(Firsts(combined), InQuery)| ==>
      Filter(Firsts(combined), InQuery)[a] in combined && InQuery(Filter(Firsts(combined), InQuery)[a])
  {
    var defs := Firsts(combined);
    forall a | 0 <= a < |defs| ensures defs[a] in combined {
      FirstsAt(combined, a);
    }
  }

  /** The first parameter of each name located in the path or the query is in its list. */
  lemma ListsAreComplete(combined: seq<Param>)
    ensures forall i :: 0 <= i < |combined| && FirstIndex(combined, combined[i].name) == i && InPath(combined[i]) ==>
      combined[i] in Filter(Firsts(combined), InPath)
    ensures forall i :: 0 <= i < |combined| && FirstIndex(combined, combined[i].name) == i && InQuery(combined[i]) ==>
      combined[i] in Filter(Firsts(combined), InQuery)
  {
    var defs := Firsts(combined);
    forall i | 0 <= i < |combined| && FirstIndex(combined, combined[i].name) == i
      ensures combined[i] in defs
    {
      FirstsFacts(combined);
      assert combined[i].name in Names(combined);
      var m :| 0 <= m < |defs| && Names(defs)[m] == combined[i].name;
      FirstsAt(combined, m);
    }
  }

  /** Each list keeps the order of the first occurrences of its names. */
  lemma ListsKeepOrder(combined: seq<Param>)
    ensures forall a, b :: 0 <= a < b < |Filter(Firsts(combined), InPath)| ==>
      FirstIndex(combined, Filter(Firsts(combined), InPath)[a].name) < FirstIndex(combined, Filter(Firsts(combined), InPath)[b].name)
    ensures forall a, b :: 0 <= a < b < |Filter(Firsts(combined), InQuery)| ==>
      FirstIndex(combined, Filter(Firsts(combined), InQuery)[a].name) < FirstIndex(combined, Filter(Firsts(combined), InQuery)[b].name)
  {
    var defs := Firsts(combined);
    var key := (p: Param) => FirstIndex(combined, p.name);
    FirstsFacts(combined);
    assert forall a, b :: 0 <= a < b < |defs| ==> key(defs[a]) < key(defs[b]);
    FilterKeepsOrder(defs, InPath, key);
    FilterKeepsOrder(defs, InQuery, key);
  }

  /** No name is both in the path list and in the query list. */
  lemma ListsAreDisjoint(combined: seq<Param>)
    ensures forall a, b :: 0 <= a < |Filter(Firsts(combined), InPath)| && 0 <= b < |Filter(Firsts(combined), InQuery)| ==>
      Filter(Firsts(combined), InPath)[a].name != Filter(Firsts(combined), InQuery)[b].name
  {
    var defs := Firsts(combined);
    var pathList, queryList := Filter(defs, InPath), Filter(defs, InQuery);
    forall a, b | 0 <= a < |pathList| && 0 <= b < |queryList| ensures pathList[a].name != queryList[b].name {
      var m :| 0 <= m < |defs| && defs[m] == pathList[a];
      var n :| 0 <= n < |defs| && defs[n] == queryList[b];
      assert m != n;
      FirstsFacts(combined);
      if m < n {
        assert defs[m].name != defs[n].name;
      } else {
        assert defs[n].name != defs[m].name;
      }
    }
  }

  // ---------------------------------------------------------------------------------------
  // Initial values (lines 80-97)

  /** The query a user picked from the saved list. */
  datatype SavedQuery = SavedQuery(pathTemplate: string, verb: string, params: Option<Entries>, query: Option<Entries>)

  /** Which saved object, and which state object, a value belongs to. */
  datatype Section = PathSection | QuerySection

  /** A saved query applies to the endpoint with its path template and, ignoring case, its method. */
  predicate MatchesSavedQuery(saved: Option<SavedQuery>, path: string, verb: string)
  {
    saved.Some? && saved.value.pathTemplate == path && Lower(saved.value.verb) == Lower(verb)
  }

  /** A name as a property key: an undefined name is the key "undefined". */
  function PropertyKey(name: Option<string>): string
  {
    if name.None? then "undefined" else name.value
  }

  /** `obj?.[key]`: undefined for a missing object or key. */
  function Get(obj: Option<Entries>, key: string): (r: Option<Json>)
    ensures obj.None? ==> r.None?
    ensures obj.Some? && Lookup(obj.value, key).None? ==> r.None?
    ensures obj.Some? && Lookup(obj.value, key).Some? ==> r == Lookup(obj.value, key).value
  {
    if obj.None? then None
    else match Lookup(obj.value, key)
      case None => None
      case Some(v) => v
  }

  function SavedValue(saved: Option<SavedQuery>, path: string, verb: string, section: Section, param: Param): Option<Json>
  {
    if MatchesSavedQuery(saved, path, verb) then
      Get(if section == PathSection then saved.value.params else saved.value.query, PropertyKey(param.name))
    else None
  }

  /** `c0 ?? c1 ?? … ?? fallback`. */
  function Coalesce(candidates: seq<Option<Json>>, fallback: Json): Json
  {
    if |candidates| == 0 then fallback
    else if !Nullish(candidates[0]) then candidates[0].value
    else Coalesce(candidates[1..], fallback)
  }

  /** The value is the first candidate that is neither undefined nor null. */
  lemma {:induction false} CoalesceFirst(candidates: seq<Option<Json>>, fallback: Json, i: nat)
    requires i < |candidates| && !Nullish(candidates[i])
    requires forall k :: 0 <= k < i ==> Nullish(candidates[k])
    ensures Coalesce(candidates, fallback) == candidates[i].value
    decreases i
  {
    if i > 0 {
      assert Nullish(candidates[0]);
      assert forall k :: 0 <= k < i - 1 ==> candidates[1..][k] == candidates[k + 1];
      CoalesceFirst(candidates[1..], fallback, i - 1);
    }
  }

  /** With every candidate undefined or null, the value is the fallback. */
  lemma {:induction false} CoalesceFallback(candidates: seq<Option<Json>>, fallback: Json)
    requires forall k :: 0 <= k < |candidates| ==> Nullish(candidates[k])
    ensures Coalesce(candidates, fallback) == fallback
    decreases |candidates|
  {
    if |candidates| > 0 {
      assert Nullish(candidates[0]);
      assert forall k :: 0 <= k < |candidates| - 1 ==> candidates[1..][k] == candidates[k + 1];
      CoalesceFallback(candidates[1..], fallback);
    }
  }

  /** The initial value of a parameter: the saved value, the example, the default, or "". */
  function InitialValue(saved: Option<SavedQuery>, path: string, verb: string, section: Section, param: Param): Json
  {
    Coalesce([SavedValue(saved, path, verb, section, param), param.example, param.defaultValue], JStr(""))
  }

  /** The precedence, case by case. */
  lemma InitialValuePrecedence(saved: Option<SavedQuery>, path: string, verb: string, section: Section, param: Param)
    ensures var sv := SavedValue(saved, path, verb, section, param);
      var v := InitialValue(saved, path, verb, section, param);
      && (!Nullish(sv) ==> v == sv.value)
      && (Nullish(sv) && !Nullish(param.example) ==> v == param.example.value)
      && (Nullish(sv) && Nullish(param.example) && !Nullish(param.defaultValue) ==> v == param.defaultValue.value)
      && (Nullish(sv) && Nullish(param.example) && Nullish(param.defaultValue) ==> v == JStr(""))
  {
    var sv := SavedValue(saved, path, verb, section, param);
    var cs := [sv, param.example, param.defaultValue];
    if !Nullish(sv) {
      CoalesceFirst(cs, JStr(""), 0);
    } else if !Nullish(param.example) {
      CoalesceFirst(cs, JStr(""), 1);
    } else if !Nullish(param.defaultValue) {
      CoalesceFirst(cs, JStr(""), 2);
    } else {
      CoalesceFallback(cs, JStr(""));
    }
  }

  /** A saved query that does not match the endpoint is ignored. */
  lemma UnmatchedSavedQueryIgnored(saved: Option<SavedQuery>, path: string, verb: string, section: Section, param: Param)
    requires !MatchesSavedQuery(saved, path, verb)
    ensures InitialValue(saved, path, verb, section, param) == Coalesce([param.example, param.defaultValue], JStr(""))
  {
    var cs := [SavedValue(saved, path, verb, section, param), param.example, param.defaultValue];
    assert cs[1..] == [param.example, param.defaultValue];
  }

  /** The method comparison ignores the case of ASCII letters, and only that. */
  lemma MethodMatchIgnoresCase(saved: Option<SavedQuery>, path: string, verb: string)
    ensures MatchesSavedQuery(saved, path, verb) <==>
      saved.Some? && saved.value.pathTemplate == path && EqualsIgnoreCase(saved.value.verb, verb)
  {
    if saved.Some? {
      EqualsIgnoreCaseIffLower(saved.value.verb, verb);
    }
  }

  /**
   * The state object of one section (lines 85-97): every definition's key with its initial
   * value, in definition order.
   */
  method InitialParams(definitions: seq<Param>, saved: Option<SavedQuery>, path: string, verb: string, section: Section)
    returns (values: Entries)
    ensures |values| == |definitions|
    ensures forall i :: 0 <= i < |definitions| ==>
      values[i] == (PropertyKey(definitions[i].name), Some(InitialValue(saved, path, verb, section, definitions[i])))
  {
    var matches := saved.Some? && saved.value.pathTemplate == path && Lower(saved.value.verb) == Lower(verb);
    values := [];
    var i := 0;
    while i < |definitions|
      invariant 0 <= i <= |definitions|
      invariant |values| == i
      invariant forall k :: 0 <= k < i ==>
        values[k] == (PropertyKey(definitions[k].name), Some(InitialValue(saved, path, verb, section, definitions[k])))
    {
      var param := definitions[i];
      var savedValue := if matches then Get(if section == PathSection then saved.value.params else saved.value.query, PropertyKey(param.name)) else None;
      var value := Coalesce([savedValue, param.example, param.defaultValue], JStr(""));
      values := values + [(PropertyKey(param.name), Some(value))];
      i := i + 1;
    }
  }

  // ---------------------------------------------------------------------------------------
  // The missing path parameter check (lines 136-142)

  const MissingPathPrefix: string := "Missing path parameter: "

  /** A required parameter whose current value is falsy. */
  predicate IsMissing(values: Entries, p: Param)
  {
    OptTruthy(p.required) && !OptTruthy(Get(Some(values), PropertyKey(p.name)))
  }

  /** The message for the first missing path parameter, if any. */
  function MissingPathMessage(pathList: seq<Param>, values: Entries): (r: Option<string>)
  {
    var missing := Filter(pathList, p => IsMissing(values, p));
    if |missing| == 0 then None else Some(MissingPathPrefix + PropertyKey(missing[0].name))
  }

  /**
   * The check reports exactly when a required path parameter has a falsy value, and it
   * names the first such parameter in definition order.
   */
  lemma MissingPathReportsFirst(pathList: seq<Param>, values: Entries)
    ensures MissingPathMessage(pathList, values).Some? <==> exists i :: 0 <= i < |pathList| && IsMissing(values, pathList[i])
    ensures MissingPathMessage(pathList, values).Some? ==>
      exists k :: 0 <= k < |pathList| && IsMissing(values, pathList[k]) &&
        (forall j :: 0 <= j < k ==> !IsMissing(values, pathList[j])) &&
        MissingPathMessage(pathList, values).value == MissingPathPrefix + PropertyKey(pathList[k].name)
  {
    FilterFirst(pathList, p => IsMissing(values, p));
  }
}
