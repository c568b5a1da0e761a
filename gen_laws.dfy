/** What lib/gen.ts promises about the classes it writes: every route in
    exactly one class, in order, with its types fixed and its path
    parameters listed, and each class named after its key. */
module GenLaws {
  import opened JsonModel
  import opened Text
  import opened Names
  import opened Parse
  import opened Gen

  // ----- the type fix-up -----

  /** `integer` and `array` are the only types rewritten, to names outside
      the two; fixing again changes nothing, so a parameter shared by two
      routes is fixed the same way however often it is seen. */
  lemma FixParamTypeLaws(t: string)
    ensures FixParamType(t) != "integer" && FixParamType(t) != "array"
    ensures t != "integer" && t != "array" ==> FixParamType(t) == t
    ensures FixParamType(FixParamType(t)) == FixParamType(t)
  {
    assert "number"[0] != "integer"[0] && "any[]"[0] != "integer"[0];
    assert "number" != "array" && "any[]" != "array" by {
      assert |"number"| != |"array"| && "any[]"[1] != "array"[1];
    }
  }

  /** The fix-up keeps every parameter but its type, and is idempotent. */
  lemma FixedParamsLaws(ps: seq<Param>)
    ensures forall i :: 0 <= i < |ps| ==>
              FixedParams(ps)[i] == ps[i].(paramType := FixParamType(ps[i].paramType))
    ensures FixedParams(FixedParams(ps)) == FixedParams(ps)
  {
    forall i | 0 <= i < |ps| ensures FixedParams(FixedParams(ps))[i] == FixedParams(ps)[i] {
      FixParamTypeLaws(ps[i].paramType);
    }
  }

  /** `paramsInPath` holds exactly the parameters located in the path, each
      as often as the route lists it. */
  lemma {:induction false} PathParamsMembers(ps: seq<Param>)
    ensures forall x :: x in PathParams(ps) <==> x in ps && x.location == JStr("path")
    ensures forall x :: multiset(PathParams(ps))[x] == if x.location == JStr("path") then multiset(ps)[x] else 0
  {
    if ps != [] {
      PathParamsMembers(ps[1..]);
      assert ps == [ps[0]] + ps[1..];
      assert multiset(ps) == multiset{ps[0]} + multiset(ps[1..]);
      if ps[0].location == JStr("path") {
        assert multiset(PathParams(ps)) == multiset{ps[0]} + multiset(PathParams(ps[1..]));
      } else {
        assert PathParams(ps) == PathParams(ps[1..]);
      }
    }
  }

  /** Taking the path parameters after the fix-up is fixing up the path
      parameters: the fix-up touches no location. */
  lemma {:induction false} PathParamsAfterFix(ps: seq<Param>)
    ensures PathParams(FixedParams(ps)) == FixedParams(PathParams(ps))
  {
    if ps != [] {
      PathParamsAfterFix(ps[1..]);
      assert FixedParams(ps)[1..] == FixedParams(ps[1..]);
      assert FixedParams(ps)[0] == FixParam(ps[0]);
      var head := if StrictEq(ps[0].location, JStr("path")) then [ps[0]] else [];
      assert FixedParams(head + PathParams(ps[1..])) == FixedParams(head) + FixedParams(PathParams(ps[1..]));
    }
  }

  /** A route's template is the route with fixed-up parameters, and its
      path parameters are the route's own, fixed up. */
  lemma TemplateLaws(r: Route)
    ensures Template(r).route == r.(params := FixedParams(r.params))
    ensures Template(r).paramsInPath == FixedParams(PathParams(r.params))
    ensures forall x :: x in Template(r).paramsInPath ==> x.location == JStr("path") && x in Template(r).route.params
  {
    PathParamsAfterFix(r.params);
    PathParamsMembers(FixedParams(r.params));
  }

  // ----- grouping -----

  /** A class no route has holds no route. */
  lemma {:induction false} RoutesOfAbsent(data: seq<Route>, k: string)
    requires k !in ClassKeys(data)
    ensures RoutesOf(data, k) == []
    decreases |data|
  {
    if data != [] {
      var prefix := data[..|data| - 1];
      assert ClassKeys(data)[|data| - 1] == GroupKey(data[|data| - 1]);
      assert forall i :: 0 <= i < |prefix| ==> ClassKeys(prefix)[i] == ClassKeys(data)[i];
      RoutesOfAbsent(prefix, k);
    }
  }

  /** What one more route does to the class keys, their first-appearance
      order and each class's routes. */
  lemma SnocFacts(prefix: seq<Route>, r: Route)
    ensures var data := prefix + [r];
            var d := Distinct(ClassKeys(prefix), |prefix|);
            ClassKeys(data) == ClassKeys(prefix) + [GroupKey(r)]
            && Distinct(ClassKeys(data), |data|) == (if GroupKey(r) in d then d else d + [GroupKey(r)])
            && forall k :: RoutesOf(data, k) == RoutesOf(prefix, k) + (if GroupKey(r) == k then [Template(r)] else [])
  {
    var data := prefix + [r];
    var n := |prefix|;
    assert data[..n] == prefix && data[n] == r;
    assert ClassKeys(data) == ClassKeys(prefix) + [GroupKey(r)];
    assert ClassKeys(data)[..n] == ClassKeys(prefix)[..n];
    DistinctPrefix(ClassKeys(data), ClassKeys(prefix), n);
  }

  /** Adding a route to a grouping that is right for the routes before it
      gives the grouping that is right with it. */
  lemma AddRouteStep(m: seq<(string, seq<TemplateRoute>)>, prefix: seq<Route>, r: Route)
    requires Keys(m) == Distinct(ClassKeys(prefix), |prefix|) && DistinctKeys(m)
    requires forall k :: Lookup(m, k) == if k in ClassKeys(prefix) then Some(RoutesOf(prefix, k)) else None
    ensures var data := prefix + [r];
            Keys(AddRoute(m, r)) == Distinct(ClassKeys(data), |data|) && DistinctKeys(AddRoute(m, r))
            && forall k :: Lookup(AddRoute(m, r), k) == if k in ClassKeys(data) then Some(RoutesOf(data, k)) else None
  {
    var k := GroupKey(r);
    var v := if Lookup(m, k).None? then [Template(r)] else Lookup(m, k).value + [Template(r)];
    assert AddRoute(m, r) == Put(m, k, v);
    SnocFacts(prefix, r);
    AddRouteKeys(m, Distinct(ClassKeys(prefix), |prefix|), ClassKeys(prefix), k, v);
    forall k' ensures Lookup(Put(m, k, v), k') == if k' in ClassKeys(prefix + [r]) then Some(RoutesOf(prefix + [r], k')) else None {
      AddRouteLookup(m, prefix, r, k', v);
    }
  }

  lemma AddRouteKeys(m: seq<(string, seq<TemplateRoute>)>, d: seq<string>, ks: seq<string>, k: string, v: seq<TemplateRoute>)
    requires Keys(m) == d && DistinctKeys(m) && (forall x :: x in d <==> x in ks)
    ensures Keys(Put(m, k, v)) == (if k in ks then d else d + [k]) && DistinctKeys(Put(m, k, v))
  {
    PutLaws(m, k, v);
    PutDistinct(m, k, v);
  }

  lemma AddRouteLookup(m: seq<(string, seq<TemplateRoute>)>, prefix: seq<Route>, r: Route, k': string, v: seq<TemplateRoute>)
    requires Lookup(m, k') == if k' in ClassKeys(prefix) then Some(RoutesOf(prefix, k')) else None
    requires Lookup(m, GroupKey(r)) == if GroupKey(r) in ClassKeys(prefix) then Some(RoutesOf(prefix, GroupKey(r))) else None
    requires v == if Lookup(m, GroupKey(r)).None? then [Template(r)] else Lookup(m, GroupKey(r)).value + [Template(r)]
    ensures Lookup(Put(m, GroupKey(r), v), k') == if k' in ClassKeys(prefix + [r]) then Some(RoutesOf(prefix + [r], k')) else None
  {
    var k := GroupKey(r);
    ClassKeysSnoc(prefix, r);
    RoutesOfSnoc(prefix, r, k');
    if k' !in ClassKeys(prefix) {
      RoutesOfAbsent(prefix, k');
    }
    LookupAfterPut(m, k, v, k', ClassKeys(prefix), ClassKeys(prefix + [r]),
                   RoutesOf(prefix, k'), RoutesOf(prefix + [r], k'), RoutesOf(prefix, k), Template(r));
  }

  /** The step of the grouping in terms of plain values. */
  lemma LookupAfterPut<T>(m: seq<(string, seq<T>)>, k: string, v: seq<T>, k': string, ks: seq<string>, ks2: seq<string>,
                          before: seq<T>, after: seq<T>, atK: seq<T>, t: T)
    requires ks2 == ks + [k]
    requires Lookup(m, k') == if k' in ks then Some(before) else None
    requires Lookup(m, k) == if k in ks then Some(atK) else None
    requires k' !in ks ==> before == []
    requires after == before + (if k == k' then [t] else [])
    requires v == if Lookup(m, k).None? then [t] else Lookup(m, k).value + [t]
    ensures Lookup(Put(m, k, v), k') == if k' in ks2 then Some(after) else None
  {
    PutLaws(m, k, v);
    assert k' in ks2 <==> k' in ks || k' == k;
    if k' == k {
      if k !in ks {
        assert [] + [t] == [t];
      }
    } else {
      assert before + [] == before;
      assert Lookup(Put(m, k, v), k') == Lookup(m, k');
    }
  }

  lemma ClassKeysSnoc(prefix: seq<Route>, r: Route)
    ensures ClassKeys(prefix + [r]) == ClassKeys(prefix) + [GroupKey(r)]
  {
    assert (prefix + [r])[|prefix|] == r;
  }

  lemma RoutesOfSnoc(prefix: seq<Route>, r: Route, k: string)
    ensures RoutesOf(prefix + [r], k) == RoutesOf(prefix, k) + (if GroupKey(r) == k then [Template(r)] else [])
  {
    assert (prefix + [r])[..|prefix|] == prefix;
  }

  /** `metadata` has one entry per class, in the order the classes first
      appear, and each holds the templates of exactly that class's routes in
      input order. */
  lemma {:induction false} GroupedLaws(data: seq<Route>)
    ensures Keys(Grouped(data)) == Distinct(ClassKeys(data), |data|)
    ensures DistinctKeys(Grouped(data))
    ensures forall k :: Lookup(Grouped(data), k) == if k in ClassKeys(data) then Some(RoutesOf(data, k)) else None
    decreases |data|
  {
    if data != [] {
      var prefix := data[..|data| - 1];
      assert data == prefix + [data[|data| - 1]];
      GroupedLaws(prefix);
      AddRouteStep(Grouped(prefix), prefix, data[|data| - 1]);
    }
  }

  /** The number of routes the classes `keys` hold together. */
  function Total(data: seq<Route>, keys: seq<string>): nat {
    if keys == [] then 0 else |RoutesOf(data, keys[0])| + Total(data, keys[1..])
  }

  lemma {:induction false} TotalAppend(data: seq<Route>, keys: seq<string>, k: string)
    ensures Total(data, keys + [k]) == Total(data, keys) + |RoutesOf(data, k)|
  {
    if keys != [] {
      assert (keys + [k])[1..] == keys[1..] + [k];
      TotalAppend(data, keys[1..], k);
    }
  }

  /** One more route adds one to the total of distinct classes that include
      its own, and nothing to one that does not. */
  lemma {:induction false} TotalStep(data: seq<Route>, keys: seq<string>)
    requires data != []
    requires forall i, j :: 0 <= i < j < |keys| ==> keys[i] != keys[j]
    ensures var k := GroupKey(data[|data| - 1]);
            Total(data, keys) == Total(data[..|data| - 1], keys) + (if k in keys then 1 else 0)
  {
    if keys != [] {
      TotalStep(data, keys[1..]);
      assert keys == [keys[0]] + keys[1..];
    }
  }

  /** The classes partition the routes: their lists hold `|data|` routes
      in all. */
  lemma {:induction false} GroupsPartition(data: seq<Route>)
    ensures Total(data, Distinct(ClassKeys(data), |data|)) == |data|
    decreases |data|
  {
    if data != [] {
      var n := |data|;
      var prefix := data[..n - 1];
      var k := GroupKey(data[n - 1]);
      GroupsPartition(prefix);
      assert ClassKeys(data)[..n - 1] == ClassKeys(prefix)[..n - 1];
      DistinctPrefix(ClassKeys(data), ClassKeys(prefix), n - 1);
      var d := Distinct(ClassKeys(prefix), n - 1);
      assert ClassKeys(prefix)[..n - 1] == ClassKeys(prefix);
      assert ClassKeys(data)[n - 1] == k;
      TotalStep(data, d);
      if k !in d {
        TotalAppend(data, d, k);
        RoutesOfAbsent(prefix, k);
        assert RoutesOf(data, k) == [] + [Template(data[n - 1])];
        TotalStep(data, d + [k]);
      }
    }
  }

  // ----- the files -----

  /** Without a config, `camelCase` and `type` default to `false` and
      `ts`. */
  lemma MergedConfigDefaults(config: Json)
    requires !Truthy(config)
    ensures Get(MergedConfig(config), "camelCase") == JBool(false)
    ensures Get(MergedConfig(config), "type") == JStr("ts")
  {
    assert MergedConfig(config) == JObj(GenConfigDefaults);
  }

  /** The merged configuration reads each key the config gives from the
      config, and the two defaults otherwise. */
  lemma MergedConfigOverrides(config: Json)
    requires config.JObj? && DistinctKeys(config.fields)
    ensures forall k :: k in Keys(config.fields) ==> Get(MergedConfig(config), k) == Get(config, k)
    ensures "camelCase" !in Keys(config.fields) ==> Get(MergedConfig(config), "camelCase") == JBool(false)
    ensures "type" !in Keys(config.fields) ==> Get(MergedConfig(config), "type") == JStr("ts")
  {
    MergedConfigSpread(config);
    SpreadLaws(GenConfigDefaults, config.fields);
  }

  /** A config object with distinct keys is spread over the defaults as it
      is. */
  lemma MergedConfigSpread(config: Json)
    requires config.JObj? && DistinctKeys(config.fields)
    ensures MergedConfig(config) == JObj(Spread(GenConfigDefaults, config.fields))
  {
    assert [] + config.fields == config.fields;
    SpreadAppends([], config.fields);
  }

  /** The name of a class without `Controller` is its key. */
  lemma TypeNamePlain(className: string)
    requires forall j :: 0 <= j <= |className| ==> !("Controller" <= className[j..])
    ensures TypeName(className) == className
  {
    ReplaceFirstAbsent(className, "Controller", "");
  }

  /** The first `Controller` goes, wherever it stands. */
  lemma TypeNameExamples()
    ensures TypeName("PetController") == "Pet"
    ensures TypeName("Controller") == ""
  {
    var s := "PetController";
    assert s[3..] == "Controller";
    assert s[0] != 'C' && s[1] != 'C' && s[2] != 'C';
    assert !("Controller" <= s[0..]) && !("Controller" <= s[1..]) && !("Controller" <= s[2..]) by {
      assert s[0..][0] == s[0] && s[1..][0] == s[1] && s[2..][0] == s[2];
    }
    assert FindFrom(s, "Controller", 0) == Some(3);
    assert "Controller" <= "Controller"[0..];
  }

  /** A class file exists exactly when the name left after removing
      `Controller` is not empty (the first character of an empty name
      cannot be lowered); it then carries the class's routes and an
      instance name with a lower-case first letter. */
  lemma SdkFileLaws(config: Json, entry: (string, seq<TemplateRoute>))
    ensures SdkFileOf(config, entry).Ok? <==> TypeName(entry.0) != ""
    ensures SdkFileOf(config, entry).Ok? ==>
              var file := SdkFileOf(config, entry).value;
              file.className == TypeName(entry.0) && file.methodMetadata == entry.1
              && file.fileName == SdkFileName(config, file.className)
              && |file.instanceName| == |file.className| && file.instanceName[0] == LowerChar(file.className[0])
              && file.instanceName[1..] == file.className[1..]
  {
  }

  /** A file name ends in the configured type, and is hyphen-cased, so
      without capitals, unless `camelCase` is set. */
  lemma SdkFileNameLaws(config: Json, typeName: string)
    ensures var name := SdkFileName(config, typeName);
            var ext := "." + ToStr(Get(config, "type"));
            |name| >= |ext| && name[|name| - |ext|..] == ext
            && (!Truthy(Get(config, "camelCase")) ==> forall i :: 0 <= i < |name| - |ext| ==> !IsUpper(name[i]))
  {
    var ext := "." + ToStr(Get(config, "type"));
    var stem := if Truthy(Get(config, "camelCase")) then ToCamelCase(typeName) else ToHyphenCase(typeName);
    Suffixed(stem, ext);
  }

  lemma Suffixed(stem: string, ext: string)
    ensures (stem + ext)[|stem + ext| - |ext|..] == ext
    ensures forall i :: 0 <= i < |stem| ==> (stem + ext)[i] == stem[i]
  {
  }

  /** A key that is exactly `Controller` stops the generation. */
  lemma ControllerOnlyThrows(config: Json, routes: seq<TemplateRoute>)
    ensures SdkFileOf(config, ("Controller", routes)) == Err(TypeError)
  {
    TypeNameExamples();
  }

  /** `genAPISDK` writes one file per class, in first-appearance order,
      holding exactly that class's routes; it throws exactly when some
      class name is empty once `Controller` is removed. */
  lemma GenApiSdkLaws(data: seq<Route>, config: Json)
    ensures var classes := Distinct(ClassKeys(data), |data|);
            (GenApiSdk(data, config).Ok? <==> forall i :: 0 <= i < |classes| ==> TypeName(classes[i]) != "")
            && (GenApiSdk(data, config).Ok? ==>
                  var files := GenApiSdk(data, config).value;
                  |files| == |classes|
                  && forall i :: 0 <= i < |classes| ==>
                       files[i].className == TypeName(classes[i]) && files[i].methodMetadata == RoutesOf(data, classes[i]))
  {
    var classes := Distinct(ClassKeys(data), |data|);
    var m := Grouped(data);
    GroupedLaws(data);
    SdkFilesLaws(MergedConfig(config), m);
    forall i | 0 <= i < |m| ensures m[i].0 == classes[i] && m[i].1 == RoutesOf(data, classes[i]) {
      GroupedEntry(data, m, classes, i);
    }
  }

  /** The `i`-th class of the grouping holds that class's routes. */
  lemma GroupedEntry(data: seq<Route>, m: seq<(string, seq<TemplateRoute>)>, classes: seq<string>, i: nat)
    requires m == Grouped(data) && classes == Distinct(ClassKeys(data), |data|)
    requires Keys(m) == classes && DistinctKeys(m) && i < |m|
    requires forall k :: Lookup(m, k) == if k in ClassKeys(data) then Some(RoutesOf(data, k)) else None
    ensures m[i].0 == classes[i] && m[i].1 == RoutesOf(data, classes[i])
  {
    assert Keys(m)[i] == m[i].0;
    LookupEntry(m, i);
    assert classes[i] in ClassKeys(data)[..|data|];
    assert ClassKeys(data)[..|data|] == ClassKeys(data);
  }

  /** The files of any class list: one per class in its order, named
      after it and holding its routes; the writing throws exactly when some
      class name is empty once `Controller` is removed. */
  lemma SdkFilesLaws(config: Json, m: seq<(string, seq<TemplateRoute>)>)
    ensures SdkFiles(config, m).Ok? <==> forall i :: 0 <= i < |m| ==> TypeName(m[i].0) != ""
    ensures SdkFiles(config, m).Ok? ==>
              var files := SdkFiles(config, m).value;
              |files| == |m|
              && forall i :: 0 <= i < |m| ==> files[i].className == TypeName(m[i].0) && files[i].methodMetadata == m[i].1
  {
    var f := entry => SdkFileOf(config, entry);
    MapThrowingLaws(f, m);
    forall i | 0 <= i < |m|
      ensures f(m[i]).Ok? <==> TypeName(m[i].0) != ""
      ensures f(m[i]).Ok? ==> f(m[i]).value.className == TypeName(m[i].0) && f(m[i]).value.methodMetadata == m[i].1
    {
      SdkFileLaws(config, m[i]);
    }
  }
}
