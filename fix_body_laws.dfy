/** What `fixRequestBody` guarantees for one operation, stated over
    `FixOperation`. */
module FixBodyLaws {
  import opened JsonModel
  import opened FixBody

  // ----- the two filters -----

  lemma {:induction false} BodyParamsConcat(a: seq<Json>, b: seq<Json>)
    ensures BodyParams(a + b) == BodyParams(a) + BodyParams(b)
  {
    if a == [] {
      assert a + b == b;
    } else {
      var x, rest := a[0], a[1..];
      assert a + b == [x] + (rest + b);
      assert a == [x] + rest;
      BodyParamsCons(x, rest + b);
      BodyParamsCons(x, rest);
      BodyParamsConcat(rest, b);
      AppendAssoc(if IsBody(x) then [x] else [], BodyParams(rest), BodyParams(b));
    }
  }

  lemma AppendAssoc(h: seq<Json>, x: seq<Json>, y: seq<Json>)
    ensures (h + x) + y == h + (x + y)
  {
  }

  lemma BodyParamsCons(x: Json, rest: seq<Json>)
    ensures BodyParams([x] + rest) == (if IsBody(x) then [x] else []) + BodyParams(rest)
  {
    assert ([x] + rest)[0] == x && ([x] + rest)[1..] == rest;
  }

  /** A list has no body param exactly when the body filter keeps nothing,
      and then the other filter keeps everything. */
  lemma {:induction false} NoBodyParams(ps: seq<Json>)
    ensures BodyParams(ps) == [] <==> forall i :: 0 <= i < |ps| ==> !IsBody(ps[i])
    ensures BodyParams(ps) == [] ==> OtherParams(ps) == ps
  {
    if ps != [] {
      NoBodyParams(ps[1..]);
      if BodyParams(ps) == [] {
        assert !IsBody(ps[0]);
        assert BodyParams(ps[1..]) == [];
      }
      if forall i :: 0 <= i < |ps| ==> !IsBody(ps[i]) {
        assert forall i :: 0 <= i < |ps[1..]| ==> !IsBody(ps[1..][i]) by {
          forall i | 0 <= i < |ps[1..]| ensures !IsBody(ps[1..][i]) {
            assert ps[1..][i] == ps[i + 1];
          }
        }
      }
    }
  }

  // ----- the new parameter list -----

  /** Several body params become one: the other params in their order
      followed by the merged param. */
  lemma MergedList(ps: seq<Json>)
    requires |BodyParams(ps)| > 1
    ensures var after := OtherParams(ps) + [Dto(BodyParams(ps))];
            after[..|OtherParams(ps)|] == OtherParams(ps)
            && BodyParams(after) == [Dto(BodyParams(ps))]
  {
    var others := OtherParams(ps);
    var dto := Dto(BodyParams(ps));
    BodyParamsConcat(others, [dto]);
    NoBodyParams(others);
    assert BodyParams([dto]) == [dto] by {
      assert [dto][1..] == [];
    }
    assert (others + [dto])[..|others|] == others;
  }

  /** Re-querying leaves no body param, keeps the length and order, and
      changes nothing but the `in` of body params. */
  lemma RequeriedList(ps: seq<Json>)
    ensures var after := RequeryAll(ps, |ps|);
            BodyParams(after) == []
            && (forall i :: 0 <= i < |ps| && !IsBody(ps[i]) ==> after[i] == ps[i])
            && (forall i :: 0 <= i < |ps| && IsBody(ps[i]) ==>
                  Get(after[i], "in") == JStr("query")
                  && forall k :: k != "in" ==> Get(after[i], k) == Get(ps[i], k))
  {
    var after := RequeryAll(ps, |ps|);
    forall i | 0 <= i < |ps| && IsBody(ps[i])
      ensures forall k :: k != "in" ==> Get(after[i], k) == Get(ps[i], k)
    {
      assert ps[i].JObj?;
    }
    NoBodyParams(after);
  }

  /** A list without body params is its own re-query. */
  lemma RequeryNothing(ps: seq<Json>)
    requires BodyParams(ps) == []
    ensures RequeryAll(ps, |ps|) == ps
  {
    NoBodyParams(ps);
  }

  /** Assigning `parameters` changes that field only. */
  lemma SetParameters(op: Json, ps: seq<Json>)
    requires op.JObj?
    ensures Get(Set(op, "parameters", JArr(ps)), "parameters") == JArr(ps)
    ensures forall k :: k != "parameters" ==> Get(Set(op, "parameters", JArr(ps)), k) == Get(op, k)
  {
    PutLaws(op.fields, "parameters", JArr(ps));
  }

  // ----- the three outcomes -----

  /** The `parameters` list `FixOperation` works on, when it gets that far. */
  predicate ParamList(op: Json, ps: seq<Json>) {
    op != JNull && op != JUndef && Get(op, "parameters") == JArr(ps)
    && forall i :: 0 <= i < |ps| ==> ps[i] != JNull && ps[i] != JUndef
  }

  /** The pass throws for an operation that is null or undefined, and for a
      truthy `parameters` that is not an array or holds null or undefined;
      it throws in no other case. */
  lemma FixOperationThrows(verb: string, op: Json)
    ensures FixOperation(verb, op).Err? <==>
              op == JNull || op == JUndef
              || (Truthy(Get(op, "parameters"))
                  && (!Get(op, "parameters").JArr?
                      || exists i :: 0 <= i < |Get(op, "parameters").items|
                           && Get(op, "parameters").items[i] in {JNull, JUndef}))
    ensures FixOperation(verb, op).Err? ==> FixOperation(verb, op).error == TypeError
  {
  }

  /** An operation without (truthy) `parameters` is left alone. */
  lemma FixOperationNoParameters(verb: string, op: Json)
    requires op != JNull && op != JUndef && !Truthy(Get(op, "parameters"))
    ensures FixOperation(verb, op) == Ok(op)
  {
  }

  /** POST and PUT, in any letter case, with several body params: the list
      becomes the other params in their order followed by the single merged
      param; every other field of the operation stays. */
  lemma FixOperationMerges(verb: string, op: Json, ps: seq<Json>)
    requires ParamList(op, ps) && IsPostOrPut(verb) && |BodyParams(ps)| > 1
    ensures FixOperation(verb, op).Ok?
    ensures var r := FixOperation(verb, op).value;
            var after := Get(r, "parameters");
            after.JArr? && |after.items| == |OtherParams(ps)| + 1
            && after.items[..|OtherParams(ps)|] == OtherParams(ps)
            && BodyParams(after.items) == [Dto(BodyParams(ps))]
            && (forall k :: k != "parameters" ==> Get(r, k) == Get(op, k))
  {
    assert NewParams(verb, ps) == Some(OtherParams(ps) + [Dto(BodyParams(ps))]);
    SetParameters(op, OtherParams(ps) + [Dto(BodyParams(ps))]);
    MergedList(ps);
  }

  /** POST and PUT with at most one body param are left alone. */
  lemma FixOperationKeepsSingle(verb: string, op: Json, ps: seq<Json>)
    requires ParamList(op, ps) && IsPostOrPut(verb) && |BodyParams(ps)| <= 1
    ensures FixOperation(verb, op) == Ok(op)
  {
    assert NewParams(verb, ps) == None;
  }

  /** Any other method turns every body param into a query param with its
      other fields unchanged, leaves the other params as they were, and
      keeps the list's length and order. */
  lemma FixOperationRequeries(verb: string, op: Json, ps: seq<Json>)
    requires ParamList(op, ps) && !IsPostOrPut(verb)
    ensures FixOperation(verb, op).Ok?
    ensures var r := FixOperation(verb, op).value;
            var after := Get(r, "parameters");
            after == JArr(RequeryAll(ps, |ps|))
            && (forall k :: k != "parameters" ==> Get(r, k) == Get(op, k))
  {
    assert NewParams(verb, ps) == Some(RequeryAll(ps, |ps|));
    SetParameters(op, RequeryAll(ps, |ps|));
  }

  // ----- running it twice -----

  /** Fixing a fixed operation changes nothing, for every method: a merged
      list has one body param left, a re-queried list none. */
  lemma FixOperationIdempotent(verb: string, op: Json)
    requires op.JObj? ==> DistinctKeys(op.fields)
    requires FixOperation(verb, op).Ok?
    ensures FixOperation(verb, FixOperation(verb, op).value) == FixOperation(verb, op)
  {
    var r := FixOperation(verb, op).value;
    var params := Get(op, "parameters");
    if Truthy(params) {
      var ps := params.items;
      assert ParamList(op, ps);
      if IsPostOrPut(verb) && |BodyParams(ps)| > 1 {
        IdempotentMerge(verb, op, ps);
      } else if !IsPostOrPut(verb) {
        IdempotentRequery(verb, op, ps);
      } else {
        FixOperationKeepsSingle(verb, op, ps);
      }
    }
  }

  lemma IdempotentMerge(verb: string, op: Json, ps: seq<Json>)
    requires ParamList(op, ps) && IsPostOrPut(verb) && |BodyParams(ps)| > 1
    ensures FixOperation(verb, op).Ok?
    ensures FixOperation(verb, FixOperation(verb, op).value) == FixOperation(verb, op)
  {
    var after := OtherParams(ps) + [Dto(BodyParams(ps))];
    assert NewParams(verb, ps) == Some(after);
    var r := Set(op, "parameters", JArr(after));
    assert FixOperation(verb, op) == Ok(r);
    SetParameters(op, after);
    MergedList(ps);
    MergedNonNull(ps, OtherParams(ps), Dto(BodyParams(ps)));
    assert ParamList(r, after);
    FixOperationKeepsSingle(verb, r, after);
  }

  /** The merged list holds no null or undefined param when the list it
      came from held none. */
  lemma MergedNonNull(ps: seq<Json>, others: seq<Json>, dto: Json)
    requires forall i :: 0 <= i < |ps| ==> ps[i] != JNull && ps[i] != JUndef
    requires others == OtherParams(ps) && IsBody(dto)
    ensures forall i :: 0 <= i < |others + [dto]| ==> (others + [dto])[i] != JNull && (others + [dto])[i] != JUndef
  {
    var after := others + [dto];
    forall i | 0 <= i < |after| ensures after[i] != JNull && after[i] != JUndef {
      if i < |others| {
        assert after[i] == others[i];
        assert others[i] in ps;
        var j :| 0 <= j < |ps| && ps[j] == others[i];
      } else {
        assert after[i] == dto;
      }
    }
  }

  /** An operation whose list is its own fix is its own fix. */
  lemma FixOperationFixed(verb: string, op: Json, ps: seq<Json>)
    requires ParamList(op, ps) && op.JObj? && DistinctKeys(op.fields)
    requires NewParams(verb, ps) == Some(ps)
    ensures FixOperation(verb, op) == Ok(op)
  {
    PutExisting(op.fields, "parameters", JArr(ps));
  }

  lemma IdempotentRequery(verb: string, op: Json, ps: seq<Json>)
    requires op.JObj? ==> DistinctKeys(op.fields)
    requires ParamList(op, ps) && !IsPostOrPut(verb)
    ensures FixOperation(verb, op).Ok?
    ensures FixOperation(verb, FixOperation(verb, op).value) == FixOperation(verb, op)
  {
    var after := RequeryAll(ps, |ps|);
    assert NewParams(verb, ps) == Some(after);
    var r := Set(op, "parameters", JArr(after));
    assert FixOperation(verb, op) == Ok(r);
    SetParameters(op, after);
    PutDistinct(op.fields, "parameters", JArr(after));
    assert ParamList(r, after);
    RequeriedList(ps);
    RequeryNothing(after);
    assert NewParams(verb, after) == Some(after);
    FixOperationFixed(verb, r, after);
  }

  // ----- the walk over `paths` -----

  /** The walk assigns only to keys `paths` already has, so the paths object
      keeps its keys and their order. */
  lemma {:induction false} FixPathsKeepKeys(paths: Json, keys: seq<string>, i: nat)
    requires paths.JObj? && i <= |keys|
    requires forall j :: i <= j < |keys| ==> keys[j] in Keys(paths.fields)
    ensures FixPathsFrom(paths, keys, i).0.JObj?
    ensures Keys(FixPathsFrom(paths, keys, i).0.fields) == Keys(paths.fields)
    decreases |keys| - i
  {
    if i < |keys| {
      var (item, err) := FixPathItem(Get(paths, keys[i]));
      PutLaws(paths.fields, keys[i], item);
      FixPathsKeepKeys(Set(paths, keys[i], item), keys, i + 1);
    }
  }
}
