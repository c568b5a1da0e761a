/** JavaScript values as the generator sees them: the output of JSON.parse,
    later edited in place by the normalisation passes. Objects keep their
    keys in insertion order, which decides rename counters and suffixes. */
module JsonModel {

  datatype Option<+T> = None | Some(value: T)

  /** The exceptions the core throws. */
  datatype Error =
    | UnsupportedRef(ref: string)          // "未实现解析: <ref>" (resolution not implemented)
    | TypeError                            // property read on null/undefined, missing method
    | RangeError                           // call stack exhausted by a cyclic `$ref` chain
    | BadFormat                            // "数据格式不正确": no data, `paths` or `info`
    | BadVersion                           // only OpenAPI 3.0 / Swagger 2.0 accepted
    | UnsupportedInterfaceType(name: string, tag: Json) // "Unsupported interface type: <name>: <type>"
    | ConversionFailed                     // the Swagger 2.0 converter rejected the document

  datatype Result<+T> = Ok(value: T) | Err(error: Error) {
    predicate IsFailure() { Err? }
    function PropagateFailure<U>(): Result<U> requires Err? { Err(error) }
    function Extract(): T requires Ok? { value }
  }

  /** A JavaScript value; `JUndef` is `undefined`. */
  datatype Json =
    | JUndef
    | JNull
    | JBool(b: bool)
    | JNum(n: int)
    | JStr(s: string)
    | JArr(items: seq<Json>)
    | JObj(fields: seq<(string, Json)>)

  // ----- ordered key/value lists -----

  function Keys<V>(kvs: seq<(string, V)>): (ks: seq<string>)
    ensures |ks| == |kvs|
    ensures forall i :: 0 <= i < |kvs| ==> ks[i] == kvs[i].0
  {
    if kvs == [] then [] else [kvs[0].0] + Keys(kvs[1..])
  }

  /** The value of the first entry named `k`. */
  function Lookup<V>(kvs: seq<(string, V)>, k: string): Option<V> {
    if kvs == [] then None
    else if kvs[0].0 == k then Some(kvs[0].1)
    else Lookup(kvs[1..], k)
  }

  /** A key is found exactly when it is present, and then with a value it
      is paired with. */
  lemma {:induction false} LookupLaws<V>(kvs: seq<(string, V)>, k: string)
    ensures Lookup(kvs, k).None? <==> k !in Keys(kvs)
    ensures Lookup(kvs, k).Some? ==> exists i :: 0 <= i < |kvs| && kvs[i] == (k, Lookup(kvs, k).value)
  {
    if kvs != [] && kvs[0].0 != k {
      LookupLaws(kvs[1..], k);
      if Lookup(kvs, k).Some? {
        var i :| 0 <= i < |kvs[1..]| && kvs[1..][i] == (k, Lookup(kvs, k).value);
        assert kvs[i + 1] == kvs[1..][i];
      }
    }
  }

  /** `o[k] = v`: an existing key keeps its place, a new key goes last. */
  function Put<V>(kvs: seq<(string, V)>, k: string, v: V): seq<(string, V)> {
    if kvs == [] then [(k, v)]
    else if kvs[0].0 == k then [(k, v)] + Replaced(kvs[1..], k, v)
    else [kvs[0]] + Put(kvs[1..], k, v)
  }

  /** After `o[k] = v`, `o[k]` is `v` and every other key reads as before. */
  lemma {:induction false} PutLaws<V>(kvs: seq<(string, V)>, k: string, v: V)
    ensures Lookup(Put(kvs, k, v), k) == Some(v)
    ensures k in Keys(kvs) ==> Keys(Put(kvs, k, v)) == Keys(kvs)
    ensures k !in Keys(kvs) ==> Keys(Put(kvs, k, v)) == Keys(kvs) + [k]
    ensures forall k' :: k' != k ==> Lookup(Put(kvs, k, v), k') == Lookup(kvs, k')
  {
    if kvs != [] {
      var r := Put(kvs, k, v);
      if kvs[0].0 == k {
        ReplacedLaws(kvs[1..], k, v);
        assert r[1..] == Replaced(kvs[1..], k, v);
      } else {
        PutLaws(kvs[1..], k, v);
        assert r[1..] == Put(kvs[1..], k, v);
      }
    }
  }

  function Replaced<V>(kvs: seq<(string, V)>, k: string, v: V): seq<(string, V)> {
    if kvs == [] then []
    else [(kvs[0].0, if kvs[0].0 == k then v else kvs[0].1)] + Replaced(kvs[1..], k, v)
  }

  lemma {:induction false} ReplacedLaws<V>(kvs: seq<(string, V)>, k: string, v: V)
    ensures Keys(Replaced(kvs, k, v)) == Keys(kvs)
    ensures forall k' :: k' != k ==> Lookup(Replaced(kvs, k, v), k') == Lookup(kvs, k')
    ensures k in Keys(kvs) ==> Lookup(Replaced(kvs, k, v), k) == Some(v)
  {
    if kvs != [] {
      ReplacedLaws(kvs[1..], k, v);
      assert Replaced(kvs, k, v)[1..] == Replaced(kvs[1..], k, v);
    }
  }

  /** Assigning the same key twice keeps only the second value. */
  lemma {:induction false} PutPut<V>(kvs: seq<(string, V)>, k: string, a: V, b: V)
    ensures Put(Put(kvs, k, a), k, b) == Put(kvs, k, b)
  {
    if kvs != [] {
      if kvs[0].0 == k {
        ReplacedReplaced(kvs[1..], k, a, b);
      } else {
        PutPut(kvs[1..], k, a, b);
      }
    }
  }

  lemma {:induction false} ReplacedReplaced<V>(kvs: seq<(string, V)>, k: string, a: V, b: V)
    ensures Replaced(Replaced(kvs, k, a), k, b) == Replaced(kvs, k, b)
  {
    if kvs != [] {
      ReplacedReplaced(kvs[1..], k, a, b);
    }
  }

  /** The first `n` keys with repeats dropped: the key order of an object
      filled by assigning `ks[0]`, …, `ks[n-1]` in turn. */
  function Distinct(ks: seq<string>, n: nat): (r: seq<string>)
    requires n <= |ks|
    ensures forall k :: k in r <==> k in ks[..n]
    ensures forall i, j :: 0 <= i < j < |r| ==> r[i] != r[j]
  {
    if n == 0 then []
    else
      var d := Distinct(ks, n - 1);
      assert ks[..n] == ks[..n - 1] + [ks[n - 1]];
      if ks[n - 1] in d then d else d + [ks[n - 1]]
  }

  /** `Distinct` only looks at the first `n` keys. */
  lemma {:induction false} DistinctPrefix(a: seq<string>, b: seq<string>, n: nat)
    requires n <= |a| && n <= |b| && a[..n] == b[..n]
    ensures Distinct(a, n) == Distinct(b, n)
  {
    if n > 0 {
      assert a[..n - 1] == a[..n][..n - 1] && b[..n - 1] == b[..n][..n - 1];
      assert a[n - 1] == a[..n][n - 1] && b[n - 1] == b[..n][n - 1];
      DistinctPrefix(a, b, n - 1);
    }
  }

  /** In an object with distinct keys, each entry is what its key finds. */
  lemma LookupEntry<V>(kvs: seq<(string, V)>, i: nat)
    requires DistinctKeys(kvs) && i < |kvs|
    ensures Lookup(kvs, kvs[i].0) == Some(kvs[i].1)
  {
    LookupLaws(kvs, kvs[i].0);
    assert Keys(kvs)[i] == kvs[i].0;
  }

  /** Two entry lists with the same keys find a key at the same place. */
  lemma LookupAligned<V, W>(fs: seq<(string, V)>, out: seq<(string, W)>, k: string) returns (i: int)
    requires Keys(out) == Keys(fs) && DistinctKeys(fs)
    ensures Lookup(fs, k).None? ==> Lookup(out, k).None?
    ensures Lookup(fs, k).Some? ==>
              0 <= i < |fs| && Lookup(fs, k) == Some(fs[i].1) && Lookup(out, k) == Some(out[i].1)
  {
    LookupLaws(fs, k);
    LookupLaws(out, k);
    i := 0;
    if Lookup(fs, k).Some? {
      i :| 0 <= i < |fs| && fs[i] == (k, Lookup(fs, k).value);
      assert forall j :: 0 <= j < |out| ==> out[j].0 == Keys(out)[j] == Keys(fs)[j] == fs[j].0;
      LookupEntry(out, i);
    }
  }

  /** Assigning a key the value it already has changes nothing. */
  lemma {:induction false} PutExisting<V>(kvs: seq<(string, V)>, k: string, v: V)
    requires DistinctKeys(kvs) && Lookup(kvs, k) == Some(v)
    ensures Put(kvs, k, v) == kvs
  {
    if kvs[0].0 == k {
      ReplacedAbsent(kvs[1..], k, v);
    } else {
      PutExisting(kvs[1..], k, v);
    }
  }

  lemma {:induction false} ReplacedAbsent<V>(kvs: seq<(string, V)>, k: string, v: V)
    requires k !in Keys(kvs)
    ensures Replaced(kvs, k, v) == kvs
  {
    if kvs != [] {
      ReplacedAbsent(kvs[1..], k, v);
    }
  }

  /** `delete o[k]`. */
  function Remove<V>(kvs: seq<(string, V)>, k: string): seq<(string, V)> {
    if kvs == [] then []
    else if kvs[0].0 == k then Remove(kvs[1..], k)
    else [kvs[0]] + Remove(kvs[1..], k)
  }

  /** After `delete o[k]` the key is gone and the others read as before. */
  lemma {:induction false} RemoveLaws<V>(kvs: seq<(string, V)>, k: string)
    ensures k !in Keys(Remove(kvs, k))
    ensures forall k' :: k' != k ==> Lookup(Remove(kvs, k), k') == Lookup(kvs, k')
    ensures forall k' :: k' in Keys(Remove(kvs, k)) <==> k' in Keys(kvs) && k' != k
  {
    if kvs != [] {
      RemoveLaws(kvs[1..], k);
      if kvs[0].0 != k {
        assert Remove(kvs, k)[1..] == Remove(kvs[1..], k);
      }
    }
  }

  /** No key occurs twice, as in every JavaScript object. */
  predicate DistinctKeys<V>(kvs: seq<(string, V)>) {
    forall i, j :: 0 <= i < j < |kvs| ==> kvs[i].0 != kvs[j].0
  }

  /** Assignment keeps an object's keys distinct. */
  lemma PutDistinct<V>(kvs: seq<(string, V)>, k: string, v: V)
    requires DistinctKeys(kvs)
    ensures DistinctKeys(Put(kvs, k, v))
  {
    PutLaws(kvs, k, v);
    var r := Put(kvs, k, v);
    assert forall i :: 0 <= i < |r| ==> r[i].0 == Keys(r)[i];
    assert forall i :: 0 <= i < |kvs| ==> kvs[i].0 == Keys(kvs)[i];
  }

  /** `{...a, ...b}` on two objects. */
  function Spread<V>(a: seq<(string, V)>, b: seq<(string, V)>): seq<(string, V)>
    decreases |b|
  {
    if b == [] then a else Spread(Put(a, b[0].0, b[0].1), b[1..])
  }

  /** `{...a, ...b}` reads `b`'s keys from `b` and all others from `a`. */
  lemma {:induction false} SpreadLaws<V>(a: seq<(string, V)>, b: seq<(string, V)>)
    ensures DistinctKeys(b) ==> forall k :: k in Keys(b) ==> Lookup(Spread(a, b), k) == Lookup(b, k)
    ensures forall k :: k !in Keys(b) ==> Lookup(Spread(a, b), k) == Lookup(a, k)
    decreases |b|
  {
    if b != [] {
      PutLaws(a, b[0].0, b[0].1);
      SpreadLaws(Put(a, b[0].0, b[0].1), b[1..]);
      assert DistinctKeys(b) ==> b[0].0 !in Keys(b[1..]);
    }
  }

  /** An entry of `b` that no later entry of `b` overrides is what the
      spread object holds under its key. */
  lemma {:induction false} SpreadLast<V>(a: seq<(string, V)>, b: seq<(string, V)>, i: nat)
    requires i < |b|
    requires forall j :: i < j < |b| ==> b[j].0 != b[i].0
    ensures Lookup(Spread(a, b), b[i].0) == Some(b[i].1)
    decreases |b|
  {
    var a' := Put(a, b[0].0, b[0].1);
    if i == 0 {
      PutLaws(a, b[0].0, b[0].1);
      SpreadLaws(a', b[1..]);
    } else {
      SpreadLast(a', b[1..], i - 1);
    }
  }

  /** Assigning the entries of `b` one at a time, from the `n`-th on, onto
      an object that already holds the first `n` gives `{...a, ...b}`. */
  lemma SpreadStep<V>(a: seq<(string, V)>, b: seq<(string, V)>, acc: seq<(string, V)>, n: nat)
    requires n < |b| && Spread(acc, b[n..]) == Spread(a, b)
    ensures Spread(Put(acc, b[n].0, b[n].1), b[n + 1..]) == Spread(a, b)
  {
    assert b[n..][1..] == b[n + 1..];
  }

  /** Assigning a key the object does not have appends it. */
  lemma {:induction false} PutAbsent<V>(kvs: seq<(string, V)>, k: string, v: V)
    requires k !in Keys(kvs)
    ensures Put(kvs, k, v) == kvs + [(k, v)]
  {
    if kvs != [] {
      PutAbsent(kvs[1..], k, v);
      assert kvs == [kvs[0]] + kvs[1..];
    }
  }

  /** Spreading entries with keys of their own onto an object appends them:
      in particular `{...o}` of an object `o` holds `o`'s entries in order. */
  lemma {:induction false} SpreadAppends<V>(acc: seq<(string, V)>, b: seq<(string, V)>)
    requires DistinctKeys(acc + b)
    ensures Spread(acc, b) == acc + b
    decreases |b|
  {
    if b != [] {
      var ab := acc + b;
      assert b[0].0 !in Keys(acc) by {
        forall i | 0 <= i < |acc| ensures Keys(acc)[i] != b[0].0 {
          assert ab[i] == acc[i] && ab[|acc|] == b[0];
        }
      }
      PutAbsent(acc, b[0].0, b[0].1);
      assert (acc + [b[0]]) + b[1..] == ab;
      SpreadAppends(acc + [b[0]], b[1..]);
    }
  }

  /** `xs.map(f)` with a callback that may throw: the first exception, in
      list order, ends the map. */
  function MapThrowing<X, Y>(f: X -> Result<Y>, xs: seq<X>): (r: Result<seq<Y>>)
    ensures r.Ok? ==> |r.value| == |xs|
  {
    if xs == [] then Ok([])
    else
      var head :- f(xs[0]);
      var tail :- MapThrowing(f, xs[1..]);
      Ok([head] + tail)
  }

  /** The map succeeds exactly when the callback does on every element,
      and then holds the callback's results in order. */
  lemma {:induction false} MapThrowingLaws<X, Y>(f: X -> Result<Y>, xs: seq<X>)
    ensures MapThrowing(f, xs).Ok? <==> forall i :: 0 <= i < |xs| ==> f(xs[i]).Ok?
    ensures MapThrowing(f, xs).Ok? ==> forall i :: 0 <= i < |xs| ==> MapThrowing(f, xs).value[i] == f(xs[i]).value
  {
    if xs != [] {
      MapThrowingLaws(f, xs[1..]);
      forall i | 0 < i < |xs| ensures xs[i] == xs[1..][i - 1] { }
      if f(xs[0]).Ok? && MapThrowing(f, xs[1..]).Err? {
        var i :| 0 <= i < |xs[1..]| && !f(xs[1..][i]).Ok?;
        assert xs[i + 1] == xs[1..][i];
      }
    }
  }

  /** The exception of the map is the first one in list order. */
  lemma {:induction false} MapThrowingFirstError<X, Y>(f: X -> Result<Y>, xs: seq<X>, i: nat)
    requires i < |xs| && f(xs[i]).Err? && forall j :: 0 <= j < i ==> f(xs[j]).Ok?
    ensures MapThrowing(f, xs) == Err(f(xs[i]).error)
  {
    if i > 0 {
      MapThrowingFirstError(f, xs[1..], i - 1);
    }
  }

  /** One result of a map that succeeded. */
  lemma MapThrowingAt<X, Y>(f: X -> Result<Y>, xs: seq<X>, i: nat)
    requires MapThrowing(f, xs).Ok? && i < |xs|
    ensures f(xs[i]) == Ok(MapThrowing(f, xs).value[i])
  {
    MapThrowingLaws(f, xs);
  }

  /** Every result of a map that succeeded comes from an element. */
  lemma {:induction false} MapThrowingSource<X, Y>(f: X -> Result<Y>, xs: seq<X>, y: Y) returns (x: X)
    requires MapThrowing(f, xs).Ok? && y in MapThrowing(f, xs).value
    ensures x in xs && f(x) == Ok(y)
  {
    if f(xs[0]) == Ok(y) {
      x := xs[0];
    } else {
      x := MapThrowingSource(f, xs[1..], y);
    }
  }

  /** The map of a list with a first element. */
  lemma MapThrowingCons<X, Y>(f: X -> Result<Y>, x: X, xs: seq<X>)
    ensures MapThrowing(f, [x] + xs)
            == if f(x).Err? then Err(f(x).error)
               else if MapThrowing(f, xs).Err? then Err(MapThrowing(f, xs).error)
               else Ok([f(x).value] + MapThrowing(f, xs).value)
  {
    assert ([x] + xs)[0] == x && ([x] + xs)[1..] == xs;
  }

  /** One more element: a loop that pushes the callback's results keeps
      the map of the prefix it has seen. */
  lemma MapThrowingSnoc<X, Y>(f: X -> Result<Y>, xs: seq<X>, i: nat)
    requires i < |xs| && MapThrowing(f, xs[..i]).Ok? && f(xs[i]).Ok?
    ensures MapThrowing(f, xs[..i + 1]) == Ok(MapThrowing(f, xs[..i]).value + [f(xs[i]).value])
  {
    var pre, ext := xs[..i], xs[..i + 1];
    MapThrowingLaws(f, pre);
    MapThrowingLaws(f, ext);
    assert forall j :: 0 <= j < i ==> ext[j] == pre[j];
    assert ext[i] == xs[i];
    assert MapThrowing(f, ext).Ok?;
    var got, want := MapThrowing(f, ext).value, MapThrowing(f, pre).value + [f(xs[i]).value];
    assert |got| == |want|;
    assert forall j :: 0 <= j < i + 1 ==> got[j] == want[j];
    assert got == want;
  }

  /** The first exception after a prefix that mapped is the exception of
      the whole map. */
  lemma MapThrowingStopsAt<X, Y>(f: X -> Result<Y>, xs: seq<X>, i: nat)
    requires i < |xs| && MapThrowing(f, xs[..i]).Ok? && f(xs[i]).Err?
    ensures MapThrowing(f, xs) == Err(f(xs[i]).error)
  {
    MapThrowingLaws(f, xs[..i]);
    assert forall j :: 0 <= j < i ==> xs[..i][j] == xs[j];
    MapThrowingFirstError(f, xs, i);
  }

  // ----- JavaScript semantics of values -----

  /** `!!v` */
  predicate Truthy(v: Json) {
    match v
    case JUndef => false
    case JNull => false
    case JBool(b) => b
    case JNum(n) => n != 0
    case JStr(s) => s != ""
    case _ => true
  }

  /** `v[k]` where `v` is not null or undefined; own keys of objects,
      and canonical indices and `length` of arrays and of strings, whose
      elements are their one-character strings. */
  function Get(v: Json, k: string): Json {
    match v
    case JObj(fs) => (match Lookup(fs, k) case Some(x) => x case None => JUndef)
    case JArr(items) =>
      if k == "length" then JNum(|items|)
      else (match ParseIndex(k)
            case Some(i) => if i < |items| then items[i] else JUndef
            case None => JUndef)
    case JStr(s) => if k == "length" then JNum(|s|) else CharAt(s, k)
    case _ => JUndef
  }

  /** `s[k]` for a key other than `length`. */
  function CharAt(s: string, k: string): Json {
    match ParseIndex(k)
    case Some(i) => if i < |s| then JStr([s[i]]) else JUndef
    case None => JUndef
  }

  /** Reading a string: `length` is its length, an index inside it is the
      character there as a string, and every other key is `undefined`. */
  lemma GetString(s: string, k: string)
    ensures k == "length" ==> Get(JStr(s), k) == JNum(|s|)
    ensures ParseIndex(k).Some? && ParseIndex(k).value < |s| ==> Get(JStr(s), k) == JStr([s[ParseIndex(k).value]])
    ensures k != "length" && (ParseIndex(k).None? || ParseIndex(k).value >= |s|) ==> Get(JStr(s), k) == JUndef
  {
  }

  /** A property other than `length` or an index is a part of the value it
      is read from, or `undefined`. */
  lemma GetSmaller(v: Json, k: string)
    requires k != "length" && ParseIndex(k).None?
    ensures Get(v, k) < v || Get(v, k) == JUndef
  {
    if v.JObj? {
      LookupLaws(v.fields, k);
      if Lookup(v.fields, k).Some? {
        var i :| 0 <= i < |v.fields| && v.fields[i] == (k, Lookup(v.fields, k).value);
        assert v.fields[i] in v.fields;
      }
    }
  }

  /** `typeof v === 'object'` */
  predicate IsObjectType(v: Json) {
    v.JObj? || v.JArr? || v == JNull
  }

  /** An object literal `{...a, k1: v1, …}` reads the literal's keys from
      the literal and every other key from `a`. */
  lemma SpreadGet(a: seq<(string, Json)>, b: seq<(string, Json)>)
    requires DistinctKeys(b)
    ensures forall i :: 0 <= i < |b| ==> Get(JObj(Spread(a, b)), b[i].0) == b[i].1
    ensures forall k :: k !in Keys(b) ==> Get(JObj(Spread(a, b)), k) == Get(JObj(a), k)
  {
    SpreadLaws(a, b);
    forall i | 0 <= i < |b| ensures Lookup(b, b[i].0) == Some(b[i].1) {
      LookupLaws(b, b[i].0);
      assert Keys(b)[i] == b[i].0;
    }
  }

  /** `o[k] = v` where `o` is not null or undefined: objects gain or update
      the key, arrays update an element at a canonical index inside them,
      and assignments to anything else have no effect. */
  function Set(o: Json, k: string, v: Json): Json {
    match o
    case JObj(fs) => JObj(Put(fs, k, v))
    case JArr(items) =>
      (match ParseIndex(k)
       case Some(i) => if i < |items| then JArr(items[i := v]) else o
       case None => o)
    case _ => o
  }

  /** Reading back an assigned key gives the assigned value, and other keys
      read as before. */
  lemma SetGet(o: Json, k: string, v: Json)
    requires o.JObj?
    ensures Get(Set(o, k, v), k) == v
    ensures forall k' :: k' != k ==> Get(Set(o, k, v), k') == Get(o, k')
  {
    PutLaws(o.fields, k, v);
  }

  /** `Object.keys(o).forEach(k => { o[k] = f(o[k]); })` from the `i`-th
      key on, where `f` may throw and the first exception ends the loop. */
  function EachKey(f: Json -> Result<Json>, o: Json, keys: seq<string>, i: nat): Result<Json>
    requires i <= |keys|
    decreases |keys| - i
  {
    if i == |keys| then Ok(o)
    else
      var v :- f(Get(o, keys[i]));
      EachKey(f, Set(o, keys[i], v), keys, i + 1)
  }

  /** One step of a `forEach` over keys whose callback gave `v`. */
  lemma EachKeyStep(f: Json -> Result<Json>, o: Json, keys: seq<string>, i: nat, v: Result<Json>)
    requires i < |keys| && v == f(Get(o, keys[i]))
    ensures EachKey(f, o, keys, i) == if v.Err? then Err(v.error) else EachKey(f, Set(o, keys[i], v.value), keys, i + 1)
  {
  }

  /** Over distinct keys of an object, every visited key ends up holding `f`
      of its original value, the other keys keep theirs and no key is added;
      the loop throws exactly when `f` throws on some visited value. */
  lemma {:induction false} EachKeyLaws(f: Json -> Result<Json>, o: Json, keys: seq<string>, i: nat)
    requires o.JObj? && i <= |keys|
    requires forall a, b :: i <= a < b < |keys| ==> keys[a] != keys[b]
    ensures EachKey(f, o, keys, i).Ok? <==> forall j :: i <= j < |keys| ==> f(Get(o, keys[j])).Ok?
    ensures EachKey(f, o, keys, i).Ok? ==>
              var r := EachKey(f, o, keys, i).value;
              r.JObj?
              && (forall j :: i <= j < |keys| ==> Get(r, keys[j]) == f(Get(o, keys[j])).value)
              && (forall k :: k !in keys[i..] ==> Get(r, k) == Get(o, k))
              && ((forall k :: k in keys[i..] ==> k in Keys(o.fields)) ==> Keys(r.fields) == Keys(o.fields))
    decreases |keys| - i
  {
    if i < |keys| {
      var k := keys[i];
      assert keys[i..] == [k] + keys[i + 1..];
      var v := f(Get(o, k));
      if v.Ok? {
        var o' := Set(o, k, v.value);
        SetGet(o, k, v.value);
        PutLaws(o.fields, k, v.value);
        EachKeyLaws(f, o', keys, i + 1);
        forall j | i < j < |keys| ensures Get(o', keys[j]) == Get(o, keys[j]) {
        }
      }
    }
  }

  /** `EachKeyLaws` over all the keys of a distinct-keyed object. */
  lemma EachKeyObjectLaws(f: Json -> Result<Json>, o: Json)
    requires o.JObj? && DistinctKeys(o.fields)
    ensures var ks := Keys(o.fields);
            (EachKey(f, o, ks, 0).Ok? <==> forall j :: 0 <= j < |ks| ==> f(Get(o, ks[j])).Ok?)
            && (EachKey(f, o, ks, 0).Ok? ==>
                  var r := EachKey(f, o, ks, 0).value;
                  r.JObj? && Keys(r.fields) == ks
                  && forall j :: 0 <= j < |ks| ==> Get(r, ks[j]) == f(Get(o, ks[j])).value)
  {
    var ks := Keys(o.fields);
    assert ks[0..] == ks;
    EachKeyLaws(f, o, ks, 0);
  }

  /** `v[k]`: throws on null and undefined. */
  function Read(v: Json, k: string): (r: Result<Json>)
    ensures r.Err? <==> v == JNull || v == JUndef
    ensures r.Ok? ==> r.value == Get(v, k)
  {
    if v == JNull || v == JUndef then Err(TypeError) else Ok(Get(v, k))
  }

  /** `Object.keys(v)`: objects give their keys, arrays and strings their
      indices, null and undefined throw, numbers and booleans have none. */
  function ObjectKeys(v: Json): (r: Result<seq<string>>)
    ensures v.JObj? ==> r == Ok(Keys(v.fields))
    ensures r.Err? <==> v == JNull || v == JUndef
  {
    match v
    case JObj(fs) => Ok(Keys(fs))
    case JArr(items) => Ok(Indices(|items|))
    case JStr(s) => Ok(Indices(|s|))
    case JNull => Err(TypeError)
    case JUndef => Err(TypeError)
    case _ => Ok([])
  }

  /** `"0"`, `"1"`, …, the keys of the first `n` indices. */
  function Indices(n: nat): (r: seq<string>)
    ensures |r| == n
    ensures forall i :: 0 <= i < n ==> r[i] == NatToString(i)
  {
    seq(n, i requires 0 <= i < n => NatToString(i))
  }

  /** `a === b` on values of a parsed document, where no two distinct
      containers are the same object. */
  predicate StrictEq(a: Json, b: Json) {
    !a.JArr? && !a.JObj? && a == b
  }

  /** `Array.isArray(v) && v.length > 0` */
  predicate IsNonEmptyArray(v: Json) { v.JArr? && |v.items| > 0 }

  /** `String(v)` for property keys and template literals. An array gives
      its elements joined with commas; a plain object gives the fixed
      `[object Object]`. */
  function ToStr(v: Json): string {
    if v.JArr? then ItemsStr(v, 0) else ScalarStr(v)
  }

  /** `String(v)` of a value that is not an array. */
  function ScalarStr(v: Json): string
    requires !v.JArr?
  {
    match v
    case JUndef => "undefined"
    case JNull => "null"
    case JBool(b) => if b then "true" else "false"
    case JNum(n) => if n < 0 then "-" + NatToString(-n) else NatToString(n)
    case JStr(s) => s
    case JObj(_) => "[object Object]"
  }

  /** `Array.prototype.join(',')` from index `i` on: null and undefined
      elements give the empty string, the others their `String`. */
  function ItemsStr(v: Json, i: nat): string
    requires v.JArr?
    decreases v, |v.items| - i
  {
    if i >= |v.items| then ""
    else
      var x := v.items[i];
      var here := if x.JArr? then ItemsStr(x, 0) else if x == JNull || x == JUndef then "" else ScalarStr(x);
      (if i > 0 then "," else "") + here + ItemsStr(v, i + 1)
  }

  /** A one-element array converts as its element does, so `String(['a'])`
      is `a`; null converts to the empty string there. */
  lemma ToStrSingleton(x: Json)
    ensures ToStr(JArr([x])) == if x == JNull || x == JUndef then "" else ToStr(x)
  {
    assert ItemsStr(JArr([x]), 1) == "";
  }

  /** Nested arrays are flattened into one comma-joined string and null
      leaves an empty slot: `String([1, null, ['a', 'b']])` is `1,,a,b`. */
  lemma ToStrOfArray()
    ensures ToStr(JArr([JNum(1), JNull, JArr([JStr("a"), JStr("b")])])) == "1,,a,b"
  {
    var inner := JArr([JStr("a"), JStr("b")]);
    var v := JArr([JNum(1), JNull, inner]);
    assert ItemsStr(inner, 2) == "";
    assert ItemsStr(inner, 1) == ",b";
    assert ToStr(inner) == "a,b";
    assert ItemsStr(v, 3) == "";
    assert ItemsStr(v, 2) == ",a,b";
    assert ItemsStr(v, 1) == ",,a,b";
    assert NatToString(1) == "1";
  }

  // ----- decimal numerals -----

  predicate IsDigit(c: char) { '0' <= c <= '9' }

  function DigitChar(d: nat): (c: char)
    requires d < 10
    ensures IsDigit(c)
  {
    ['0', '1', '2', '3', '4', '5', '6', '7', '8', '9'][d]
  }

  function DigitValue(c: char): (d: nat)
    requires IsDigit(c)
    ensures d < 10 && DigitChar(d) == c
  {
    if c == '0' then 0 else if c == '1' then 1 else if c == '2' then 2
    else if c == '3' then 3 else if c == '4' then 4 else if c == '5' then 5
    else if c == '6' then 6 else if c == '7' then 7 else if c == '8' then 8 else 9
  }

  /** The decimal numeral of `n`, as `${n}` writes it. */
  function NatToString(n: nat): (s: string)
    ensures |s| > 0
    ensures forall i :: 0 <= i < |s| ==> IsDigit(s[i])
    ensures n >= 10 ==> s[0] != '0'
    decreases n
  {
    if n < 10 then [DigitChar(n)] else NatToString(n / 10) + [DigitChar(n % 10)]
  }

  function DigitsValue(s: string): nat
    requires forall i :: 0 <= i < |s| ==> IsDigit(s[i])
  {
    if s == [] then 0 else 10 * DigitsValue(s[..|s| - 1]) + DigitValue(s[|s| - 1])
  }

  /** A canonical array index: digits without a leading zero. */
  function ParseIndex(k: string): Option<nat> {
    if |k| > 0 && (forall i :: 0 <= i < |k| ==> IsDigit(k[i])) && (k[0] != '0' || |k| == 1)
    then Some(DigitsValue(k)) else None
  }

  lemma {:induction false} DigitsOfNatToString(n: nat)
    ensures DigitsValue(NatToString(n)) == n
    decreases n
  {
    var s := NatToString(n);
    if n >= 10 {
      DigitsOfNatToString(n / 10);
      assert s[..|s| - 1] == NatToString(n / 10);
    }
  }

  /** Array keys written by `${i}` read back the same element. */
  lemma ParseIndexOfNatToString(n: nat)
    ensures ParseIndex(NatToString(n)) == Some(n)
  {
    DigitsOfNatToString(n);
  }

  /** Distinct counters give distinct numerals, so suffixes never clash. */
  lemma NatToStringInjective(m: nat, n: nat)
    requires m != n
    ensures NatToString(m) != NatToString(n)
  {
    DigitsOfNatToString(m);
    DigitsOfNatToString(n);
  }
}
