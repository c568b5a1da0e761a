/** What the template-param builders of lib/ServiceGenerator.ts
    guarantee. */
module ServiceParamsLaws {
  import opened JsonModel
  import opened Text
  import opened Parse
  import opened TypeMap
  import opened ServiceRefs
  import opened ServiceParams

  /** `xs` is `ys` with some elements left out, in the same order. */
  predicate Subsequence(xs: seq<Json>, ys: seq<Json>)
    decreases |ys|
  {
    if xs == [] then true
    else if ys == [] then false
    else (xs[0] == ys[0] && Subsequence(xs[1..], ys[1..])) || Subsequence(xs, ys[1..])
  }

  // ----- filtering by location -----

  /** The filter throws exactly when some parameter is null or undefined;
      otherwise it keeps, in their order, exactly the parameters whose `in`
      is the location, each as often as the list holds it. */
  lemma AtLocationLaws(ps: seq<Json>, where: string)
    ensures AtLocation(ps, where).Ok? <==> forall i :: 0 <= i < |ps| ==> ps[i] != JNull && ps[i] != JUndef
    ensures AtLocation(ps, where).Ok? ==>
              var xs := AtLocation(ps, where).value;
              Subsequence(xs, ps)
              && (forall x :: x in xs <==> x in ps && Get(x, "in") == JStr(where))
              && (forall x :: multiset(xs)[x] == if Get(x, "in") == JStr(where) then multiset(ps)[x] else 0)
  {
    AtLocationKeeps(ps, where);
    if AtLocation(ps, where).Ok? {
      AtLocationCounts(ps, where);
    }
  }

  /** The throw condition, the order and the members of the filter. */
  lemma {:induction false} AtLocationKeeps(ps: seq<Json>, where: string)
    ensures AtLocation(ps, where).Ok? <==> forall i :: 0 <= i < |ps| ==> ps[i] != JNull && ps[i] != JUndef
    ensures AtLocation(ps, where).Ok? ==>
              var xs := AtLocation(ps, where).value;
              Subsequence(xs, ps)
              && (forall x :: x in xs <==> x in ps && Get(x, "in") == JStr(where))
    decreases |ps|
  {
    if ps != [] {
      AtLocationKeeps(ps[1..], where);
      assert forall x :: x in ps <==> x == ps[0] || x in ps[1..] by {
        assert ps == [ps[0]] + ps[1..];
      }
      if AtLocation(ps, where).Ok? {
        var rest := AtLocation(ps[1..], where).value;
        var xs := AtLocation(ps, where).value;
        if Get(ps[0], "in") == JStr(where) {
          assert xs == [ps[0]] + rest && xs[1..] == rest;
        } else {
          assert xs == rest;
          SubsequenceSkip(rest, ps);
        }
      }
      if ps[0] != JNull && ps[0] != JUndef && AtLocation(ps, where).Err? {
        assert AtLocation(ps[1..], where).Err?;
        var i :| 0 <= i < |ps[1..]| && (ps[1..][i] == JNull || ps[1..][i] == JUndef);
        assert ps[i + 1] == ps[1..][i];
      }
      if AtLocation(ps, where).Ok? {
        forall i | 0 <= i < |ps| ensures ps[i] != JNull && ps[i] != JUndef {
          if i > 0 { assert ps[i] == ps[1..][i - 1]; }
        }
      }
    }
  }

  /** The filter keeps each parameter at the location as often as the list
      holds it, and no other. */
  lemma {:induction false} AtLocationCounts(ps: seq<Json>, where: string)
    requires AtLocation(ps, where).Ok?
    ensures forall x :: multiset(AtLocation(ps, where).value)[x] == if Get(x, "in") == JStr(where) then multiset(ps)[x] else 0
    decreases |ps|
  {
    if ps != [] {
      AtLocationCounts(ps[1..], where);
      var rest := AtLocation(ps[1..], where).value;
      var xs := AtLocation(ps, where).value;
      var m := if Get(ps[0], "in") == JStr(where) then multiset{ps[0]} else multiset{};
      assert multiset(ps) == multiset{ps[0]} + multiset(ps[1..]) by {
        assert ps == [ps[0]] + ps[1..];
      }
      assert multiset(xs) == m + multiset(rest) by {
        if Get(ps[0], "in") == JStr(where) {
          assert xs == [ps[0]] + rest;
        } else {
          assert xs == rest;
        }
      }
      forall x ensures multiset(xs)[x] == if Get(x, "in") == JStr(where) then multiset(ps)[x] else 0 {
        assert multiset(xs)[x] == m[x] + multiset(rest)[x];
        assert multiset(ps)[x] == multiset{ps[0]}[x] + multiset(ps[1..])[x];
      }
    }
  }

  lemma SubsequenceSkip(xs: seq<Json>, ys: seq<Json>)
    requires ys != [] && Subsequence(xs, ys[1..])
    ensures Subsequence(xs, ys)
  {
  }

  // ----- adding the type -----

  /** A parameter object gets `type` set to its schema's type; its other
      entries stay. */
  lemma TypedLaws(p: Json, namespace: string)
    requires p.JObj? && DistinctKeys(p.fields) && Typed(p, namespace).Ok?
    ensures var q := Typed(p, namespace).value;
            Get(q, "type") == JStr(ServiceType(Get(p, "schema"), namespace).value)
            && forall k :: k != "type" ==> Get(q, k) == Get(p, k)
  {
    assert [] + p.fields == p.fields;
    SpreadAppends([], p.fields);
    PutLaws(p.fields, "type", JStr(ServiceType(Get(p, "schema"), namespace).value));
  }

  // ----- the groups -----

  /** The filter keeps something exactly when some parameter is at the
      location. */
  lemma {:induction false} AtLocationNonEmpty(ps: seq<Json>, where: string)
    requires AtLocation(ps, where).Ok?
    ensures AtLocation(ps, where).value != [] <==> exists i :: 0 <= i < |ps| && Get(ps[i], "in") == JStr(where)
    decreases |ps|
  {
    if ps != [] {
      AtLocationNonEmpty(ps[1..], where);
      if exists i :: 0 <= i < |ps[1..]| && Get(ps[1..][i], "in") == JStr(where) {
        var i :| 0 <= i < |ps[1..]| && Get(ps[1..][i], "in") == JStr(where);
        assert ps[i + 1] == ps[1..][i];
      }
      if exists i :: 0 < i < |ps| && Get(ps[i], "in") == JStr(where) {
        var i :| 0 < i < |ps| && Get(ps[i], "in") == JStr(where);
        assert ps[1..][i - 1] == ps[i];
      }
    }
  }

  /** A location has a group exactly when some resolved parameter is
      there. */
  lemma GroupNonEmpty(root: Json, depth: nat, namespace: string, ps: seq<Json>, where: string)
    requires Group(root, depth, namespace, ps, where).Ok?
    ensures var resolved := ResolveAll(root, depth, ps).value;
            Group(root, depth, namespace, ps, where).value != [] <==>
              exists i :: 0 <= i < |resolved| && Get(resolved[i], "in") == JStr(where)
  {
    var resolved := ResolveAll(root, depth, ps).value;
    AtLocationNonEmpty(resolved, where);
    var here := AtLocation(resolved, where).value;
    var g := Group(root, depth, namespace, ps, where).value;
    assert |g| == |here|;
    assert here != [] <==> exists i :: 0 <= i < |resolved| && Get(resolved[i], "in") == JStr(where);
    assert g != [] <==> here != [];
    if here != [] {
      var i :| 0 <= i < |resolved| && Get(resolved[i], "in") == JStr(where);
      assert Get(ResolveAll(root, depth, ps).value[i], "in") == JStr(where);
    }
  }

  /** The walk over the locations from the `i`-th on sets each of them
      with a non-empty group, and leaves every other key as `acc` had it. */
  lemma {:induction false} GroupsFromLaws(root: Json, depth: nat, namespace: string, ps: seq<Json>,
                                          i: nat, acc: seq<(string, Json)>)
    requires i <= |Locations| && GroupsFrom(root, depth, namespace, ps, i, acc).Ok?
    ensures var r := GroupsFrom(root, depth, namespace, ps, i, acc).value;
            r.JObj?
            && (forall k :: k !in Locations[i..] ==> Lookup(r.fields, k) == Lookup(acc, k))
            && forall j :: i <= j < |Locations| ==>
                 Group(root, depth, namespace, ps, Locations[j]).Ok?
                 && Lookup(r.fields, Locations[j]) == Filled(root, depth, namespace, ps, acc, Locations[j])
    decreases |Locations| - i
  {
    if i < |Locations| {
      var here := Locations[i];
      var group := Group(root, depth, namespace, ps, here);
      GroupsFromStep(root, depth, namespace, ps, i, acc, group);
      var g := group.value;
      var acc' := if g != [] then Put(acc, here, JArr(g)) else acc;
      GroupsFromLaws(root, depth, namespace, ps, i + 1, acc');
      var r := GroupsFrom(root, depth, namespace, ps, i + 1, acc').value;
      AddGroup(acc, here, g);
      LocationsDistinct(i);
      forall j | i <= j < |Locations|
        ensures Group(root, depth, namespace, ps, Locations[j]).Ok?
                && Lookup(r.fields, Locations[j]) == Filled(root, depth, namespace, ps, acc, Locations[j])
      {
        if j > i {
          FilledElsewhere(root, depth, namespace, ps, acc, acc', Locations[j]);
        }
      }
    }
  }

  /** A location whose entry `acc'` left as `acc` had it reads the same
      once its own group is added. */
  lemma FilledElsewhere(root: Json, depth: nat, namespace: string, ps: seq<Json>,
                        acc: seq<(string, Json)>, acc': seq<(string, Json)>, where: string)
    requires Group(root, depth, namespace, ps, where).Ok? && Lookup(acc', where) == Lookup(acc, where)
    ensures Filled(root, depth, namespace, ps, acc', where) == Filled(root, depth, namespace, ps, acc, where)
  {
  }

  /** Adding one location's group changes that location's entry only. */
  lemma AddGroup(acc: seq<(string, Json)>, here: string, g: seq<Json>)
    ensures var acc' := if g != [] then Put(acc, here, JArr(g)) else acc;
            Lookup(acc', here) == (if g == [] then Lookup(acc, here) else Some(JArr(g)))
            && forall k :: k != here ==> Lookup(acc', k) == Lookup(acc, k)
  {
    if g != [] {
      PutLaws(acc, here, JArr(g));
    }
  }

  lemma LocationsDistinct(i: nat)
    requires i < |Locations|
    ensures Locations[i] !in Locations[i + 1..]
    ensures forall k :: k in Locations[i..] <==> k == Locations[i] || k in Locations[i + 1..]
    ensures forall j :: i < j < |Locations| ==> Locations[j] != Locations[i]
  {
  }

  /** What a location reads after its group was added when non-empty. */
  function Filled(root: Json, depth: nat, namespace: string, ps: seq<Json>, acc: seq<(string, Json)>, where: string): Option<Json>
    requires Group(root, depth, namespace, ps, where).Ok?
  {
    var g := Group(root, depth, namespace, ps, where).value;
    if g == [] then Lookup(acc, where) else Some(JArr(g))
  }

  /** `getParamsTemplateParam` of a non-empty list gives an object whose
      keys are among query, header, path and cookie; a location is present
      exactly when some parameter is there, and then holds that location's
      parameters, in input order, each with its type. */
  lemma TemplateParamsGroups(root: Json, depth: nat, namespace: string, ps: seq<Json>)
    requires ps != [] && TemplateParams(root, depth, namespace, JArr(ps)).Ok?
    ensures var r := TemplateParams(root, depth, namespace, JArr(ps)).value;
            r.JObj?
            && (forall k :: k in Keys(r.fields) ==> k in Locations)
            && forall j :: 0 <= j < |Locations| ==>
                 var g := Group(root, depth, namespace, ps, Locations[j]);
                 g.Ok? && Get(r, Locations[j]) == (if g.value == [] then JUndef else JArr(g.value))
  {
    TemplateParamsNonEmpty(root, depth, namespace, ps);
    GroupsFromLaws(root, depth, namespace, ps, 0, []);
    var r := GroupsFrom(root, depth, namespace, ps, 0, []).value;
    assert Locations[0..] == Locations;
    forall k | k in Keys(r.fields) ensures k in Locations {
      LookupLaws(r.fields, k);
    }
    forall j | 0 <= j < |Locations|
      ensures var g := Group(root, depth, namespace, ps, Locations[j]);
              g.Ok? && Get(r, Locations[j]) == (if g.value == [] then JUndef else JArr(g.value))
    {
      GetFilled(root, depth, namespace, ps, r, Locations[j]);
    }
  }

  /** A non-empty list gives the walk over the locations. */
  lemma TemplateParamsNonEmpty(root: Json, depth: nat, namespace: string, ps: seq<Json>)
    requires ps != []
    ensures TemplateParams(root, depth, namespace, JArr(ps)) == GroupsFrom(root, depth, namespace, ps, 0, [])
  {
    assert Get(JArr(ps), "length") == JNum(|ps|);
  }

  lemma GetFilled(root: Json, depth: nat, namespace: string, ps: seq<Json>, r: Json, where: string)
    requires r.JObj? && Group(root, depth, namespace, ps, where).Ok?
    requires Lookup(r.fields, where) == Filled(root, depth, namespace, ps, [], where)
    ensures var g := Group(root, depth, namespace, ps, where).value;
            Get(r, where) == (if g == [] then JUndef else JArr(g))
  {
  }

  /** An absent or empty list gives `undefined`. */
  lemma TemplateParamsAbsent(root: Json, depth: nat, namespace: string)
    ensures TemplateParams(root, depth, namespace, JUndef) == Ok(JUndef)
    ensures TemplateParams(root, depth, namespace, JNull) == Ok(JUndef)
    ensures TemplateParams(root, depth, namespace, JArr([])) == Ok(JUndef)
  {
  }

  // ----- body and response -----

  /** With a non-empty `content` object the param names the first media
      type and the type of its schema; an empty one throws, since
      `content[undefined]` is read. */
  lemma MediaParamFirst(content: Json, namespace: string)
    requires content.JObj?
    ensures content.fields != [] && content.fields[0].1 != JNull && content.fields[0].1 != JUndef
            && ServiceType(Get(content.fields[0].1, "schema"), namespace).Ok? ==>
              MediaParam(content, namespace) ==
                Ok(JObj([("mediaType", JStr(content.fields[0].0)),
                         ("type", JStr(ServiceType(Get(content.fields[0].1, "schema"), namespace).value))]))
    ensures content == JObj([]) ==> MediaParam(content, namespace) == Err(TypeError)
  {
    if content.fields != [] {
      assert Keys(content.fields)[0] == content.fields[0].0;
    } else {
      assert ToStr(JUndef) == "undefined";
    }
  }

  /** Without a body, or without a `content` object, there is no body param;
      a body that resolves to an object with content describes it. */
  lemma BodyParamAbsent(root: Json, depth: nat, namespace: string, requestBody: Json)
    ensures !Truthy(requestBody) ==> BodyParam(root, depth, namespace, requestBody) == Ok(JUndef)
    ensures (requestBody.JObj? && !Truthy(Get(requestBody, "$ref"))
             && !IsObjectType(Get(requestBody, "content"))) ==> BodyParam(root, depth, namespace, requestBody) == Ok(JUndef)
  {
  }

  /** `default` wins over `'200'`, and a missing response, or one without
      a `content` object, gives the default param. */
  lemma ResponseParamChoice(root: Json, depth: nat, namespace: string, responses: Json)
    requires responses != JNull && responses != JUndef
    ensures Truthy(Get(responses, "default")) ==>
              ResponseParam(root, depth, namespace, responses) == ResponseOf(root, depth, namespace, Get(responses, "default"))
    ensures !Truthy(Get(responses, "default")) ==>
              ResponseParam(root, depth, namespace, responses) == ResponseOf(root, depth, namespace, Get(responses, "200"))
    ensures !Truthy(Get(responses, "default")) && !Truthy(Get(responses, "200")) ==>
              ResponseParam(root, depth, namespace, responses) == Ok(DefaultResponse)
  {
  }

  /** The body and the response params agree on a resolved object with a
      `content` object; without one the body gives `undefined` where the
      response gives the default. */
  lemma BodyMatchesResponse(root: Json, depth: nat, namespace: string, x: Json)
    requires ResolveRefObject(root, x, depth).Ok?
    ensures var target := ResolveRefObject(root, x, depth).value;
            (Truthy(target) && IsObjectType(Get(target, "content"))) ==>
              BodyParam(root, depth, namespace, x) == ResponseOf(root, depth, namespace, x)
    ensures var target := ResolveRefObject(root, x, depth).value;
            !(Truthy(target) && IsObjectType(Get(target, "content"))) ==>
              BodyParam(root, depth, namespace, x) == Ok(JUndef)
              && ResponseOf(root, depth, namespace, x) == Ok(DefaultResponse)
  {
  }
}
